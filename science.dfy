/** The technology records and the technology tree: a DAG of ScienceNode
    objects, each providing some technologies and leading to further nodes. */
module Science {

  datatype Technology =
    | SuperheavySpacecraft(capacity: int, cost: int)
    | Sublight(acceleration: real, maximumRange: real)
    | Spacefolding(ftlSpeed: real, maximumRange: real)
    | Wormholes(cost: int, range: real)

  const SUBLIGHT_I := Sublight(0.2, 10.0)
  const SUBLIGHT_II := Sublight(0.4, 12.0)
  const SUBLIGHT_III := Sublight(0.6, 15.0)
  const SUBLIGHT_IV := Sublight(0.8, 19.0)
  const SUBLIGHT_V := Sublight(1.0, 24.0)

  const SUPERHEAVY_I := SuperheavySpacecraft(2, 5)
  const SUPERHEAVY_II := SuperheavySpacecraft(3, 10)
  const SUPERHEAVY_III := SuperheavySpacecraft(4, 17)
  const SUPERHEAVY_IV := SuperheavySpacecraft(5, 26)
  const SUPERHEAVY_V := SuperheavySpacecraft(6, 20)
  const SUPERHEAVY_VI := SuperheavySpacecraft(7, 15)
  const SUPERHEAVY_VII := SuperheavySpacecraft(8, 10)
  const SUPERHEAVY_VIII := SuperheavySpacecraft(9, 5)

  const FOLDSPACE_I := Spacefolding(2.5, 25.0)
  const FOLDSPACE_II := Spacefolding(5.0, 50.0)
  const FOLDSPACE_III := Spacefolding(10.0, 75.0)
  const FOLDSPACE_IV := Spacefolding(20.0, 100.0)
  const FOLDSPACE_V := Spacefolding(40.0, 125.0)
  const FOLDSPACE_VI := Spacefolding(80.0, 150.0)
  const FOLDSPACE_VII := Spacefolding(160.0, 175.0)
  const FOLDSPACE_VIII := Spacefolding(320.0, 200.0)

  const WORMHOLE_I := Wormholes(1000, 10.0)
  const WORMHOLE_II := Wormholes(900, 12.0)
  const WORMHOLE_III := Wormholes(800, 15.0)
  const WORMHOLE_IV := Wormholes(700, 19.0)
  const WORMHOLE_V := Wormholes(600, 24.0)
  const WORMHOLE_VI := Wormholes(500, 30.0)
  const WORMHOLE_VII := Wormholes(400, 37.0)
  const WORMHOLE_VIII := Wormholes(300, 45.0)

  class ScienceNode {
    const provided: seq<Technology>
    var options: seq<ScienceNode>

    constructor (techs: seq<Technology>)
      ensures provided == techs && options == []
    {
      provided := techs;
      options := [];
    }

    /** Appends a node to this node's options and returns it: the supplied
        node when there is one (the technologies are then ignored), otherwise
        a fresh node providing exactly the given technologies. */
    method LeadsTo(techs: seq<Technology>, node: ScienceNode?) returns (n: ScienceNode)
      modifies this
      ensures options == old(options) + [n]
      ensures node != null ==> n == node
      ensures node == null ==> fresh(n) && n.provided == techs && n.options == []
    {
      if node == null {
        n := new ScienceNode(techs);
      } else {
        n := node;
      }
      options := options + [n];
    }
  }

  // ---------------------------------------------------------------------------
  // The static tree. Nodes are numbered in order of creation: the root
  // (constant thrust), the sublight chain ending in the first foldspace node
  // (index 5), the foldspace chain (6-12) and the wormhole chain (13-20).

  const TREE_SIZE := 21

  /** What each node of the tree provides, by creation index. */
  const TREE_PROVIDES: seq<seq<Technology>> := [
    [SUBLIGHT_I, SUPERHEAVY_I],
    [SUBLIGHT_II],
    [SUBLIGHT_III, SUPERHEAVY_II],
    [SUBLIGHT_IV],
    [SUBLIGHT_V, SUPERHEAVY_III],
    [FOLDSPACE_I],
    [FOLDSPACE_II, SUPERHEAVY_IV],
    [FOLDSPACE_III],
    [FOLDSPACE_IV, SUPERHEAVY_V],
    [FOLDSPACE_V],
    [FOLDSPACE_VI, SUPERHEAVY_VI],
    [FOLDSPACE_VII],
    [FOLDSPACE_VIII, SUPERHEAVY_VII],
    [WORMHOLE_I, SUPERHEAVY_IV],
    [WORMHOLE_II],
    [WORMHOLE_III, SUPERHEAVY_V],
    [WORMHOLE_IV],
    [WORMHOLE_V, SUPERHEAVY_VI],
    [WORMHOLE_VI],
    [WORMHOLE_VII, SUPERHEAVY_VII],
    [WORMHOLE_VIII]
  ]

  /** The creation indices of each node's options, in order. */
  const TREE_OPTIONS: seq<seq<nat>> := [
    [1], [2], [3], [4], [5], [6, 13],
    [7], [8], [9], [10], [11], [12], [],
    [14], [15], [16], [17], [18], [19], [20], []
  ]

  ghost predicate Distinct(nodes: seq<ScienceNode>)
  {
    forall i, j :: 0 <= i < j < |nodes| ==> nodes[i] != nodes[j]
  }

  /** The options of nodes[i] are the nodes whose indices opts[i] lists. */
  ghost predicate Linked(nodes: seq<ScienceNode>, opts: seq<seq<nat>>)
    reads nodes
  {
    |nodes| == |opts|
    && forall i :: 0 <= i < |nodes| ==>
         |nodes[i].options| == |opts[i]|
         && forall k :: 0 <= k < |opts[i]| ==>
              opts[i][k] < |nodes| && nodes[i].options[k] == nodes[opts[i][k]]
  }

  /** nodes has the shape of the technology tree. */
  ghost predicate TreeShape(nodes: seq<ScienceNode>)
    reads nodes
  {
    |nodes| == TREE_SIZE
    && Distinct(nodes)
    && (forall i :: 0 <= i < TREE_SIZE ==> nodes[i].provided == TREE_PROVIDES[i])
    && Linked(nodes, TREE_OPTIONS)
  }

  /** The root and the sublight chain up to the first foldspace node. */
  method BuildSublightTree() returns (nodes: seq<ScienceNode>)
    ensures |nodes| == 6
    ensures forall i :: 0 <= i < 6 ==> fresh(nodes[i])
    ensures Distinct(nodes)
    ensures forall i :: 0 <= i < 6 ==> nodes[i].provided == TREE_PROVIDES[i]
    ensures forall i :: 0 <= i < 5 ==> nodes[i].options == [nodes[i + 1]]
    ensures nodes[5].options == []
  {
    var n0 := new ScienceNode([SUBLIGHT_I, SUPERHEAVY_I]);
    var n1 := n0.LeadsTo([SUBLIGHT_II], null);
    var n2 := n1.LeadsTo([SUBLIGHT_III, SUPERHEAVY_II], null);
    var n3 := n2.LeadsTo([SUBLIGHT_IV], null);
    var n4 := n3.LeadsTo([SUBLIGHT_V, SUPERHEAVY_III], null);
    var n5 := n4.LeadsTo([FOLDSPACE_I], null);
    nodes := [n0, n1, n2, n3, n4, n5];
  }

  /** The foldspace chain hung from `from`. */
  method BuildFoldspaceTree(from: ScienceNode) returns (nodes: seq<ScienceNode>)
    modifies from
    ensures |nodes| == 7
    ensures forall i :: 0 <= i < 7 ==> fresh(nodes[i])
    ensures Distinct(nodes)
    ensures forall i :: 0 <= i < 7 ==> nodes[i].provided == TREE_PROVIDES[i + 6]
    ensures forall i :: 0 <= i < 6 ==> nodes[i].options == [nodes[i + 1]]
    ensures nodes[6].options == []
    ensures from.options == old(from.options) + [nodes[0]]
  {
    var n0 := from.LeadsTo([FOLDSPACE_II, SUPERHEAVY_IV], null);
    var n1 := n0.LeadsTo([FOLDSPACE_III], null);
    var n2 := n1.LeadsTo([FOLDSPACE_IV, SUPERHEAVY_V], null);
    var n3 := n2.LeadsTo([FOLDSPACE_V], null);
    var n4 := n3.LeadsTo([FOLDSPACE_VI, SUPERHEAVY_VI], null);
    var n5 := n4.LeadsTo([FOLDSPACE_VII], null);
    var n6 := n5.LeadsTo([FOLDSPACE_VIII, SUPERHEAVY_VII], null);
    nodes := [n0, n1, n2, n3, n4, n5, n6];
  }

  /** The wormhole chain hung from `from`. */
  method BuildWormholeTree(from: ScienceNode) returns (nodes: seq<ScienceNode>)
    modifies from
    ensures |nodes| == 8
    ensures forall i :: 0 <= i < 8 ==> fresh(nodes[i])
    ensures Distinct(nodes)
    ensures forall i :: 0 <= i < 8 ==> nodes[i].provided == TREE_PROVIDES[i + 13]
    ensures forall i :: 0 <= i < 7 ==> nodes[i].options == [nodes[i + 1]]
    ensures nodes[7].options == []
    ensures from.options == old(from.options) + [nodes[0]]
  {
    var n0 := from.LeadsTo([WORMHOLE_I, SUPERHEAVY_IV], null);
    var n1 := n0.LeadsTo([WORMHOLE_II], null);
    var n2 := n1.LeadsTo([WORMHOLE_III, SUPERHEAVY_V], null);
    var n3 := n2.LeadsTo([WORMHOLE_IV], null);
    var n4 := n3.LeadsTo([WORMHOLE_V, SUPERHEAVY_VI], null);
    var n5 := n4.LeadsTo([WORMHOLE_VI], null);
    var n6 := n5.LeadsTo([WORMHOLE_VII, SUPERHEAVY_VII], null);
    var n7 := n6.LeadsTo([WORMHOLE_VIII], null);
    nodes := [n0, n1, n2, n3, n4, n5, n6, n7];
  }

  /** Builds TECH_TREE; nodes[0] is the root. */
  method BuildTechTree() returns (nodes: seq<ScienceNode>)
    ensures TreeShape(nodes)
    ensures forall i :: 0 <= i < |nodes| ==> fresh(nodes[i])
  {
    var sublight := BuildSublightTree();
    var foldspace := BuildFoldspaceTree(sublight[5]);
    var wormhole := BuildWormholeTree(sublight[5]);
    nodes := sublight + foldspace + wormhole;
    JoinChains(sublight, foldspace, wormhole);
  }

  /** The three chains, the first ending where the other two start, join
      into the shape of the technology tree. */
  lemma JoinChains(sublight: seq<ScienceNode>, foldspace: seq<ScienceNode>, wormhole: seq<ScienceNode>)
    requires |sublight| == 6 && |foldspace| == 7 && |wormhole| == 8
    requires Distinct(sublight) && Distinct(foldspace) && Distinct(wormhole)
    requires forall i, j :: 0 <= i < 6 && 0 <= j < 7 ==> sublight[i] != foldspace[j]
    requires forall i, j :: 0 <= i < 6 && 0 <= j < 8 ==> sublight[i] != wormhole[j]
    requires forall i, j :: 0 <= i < 7 && 0 <= j < 8 ==> foldspace[i] != wormhole[j]
    requires forall i :: 0 <= i < 6 ==> sublight[i].provided == TREE_PROVIDES[i]
    requires forall i :: 0 <= i < 7 ==> foldspace[i].provided == TREE_PROVIDES[i + 6]
    requires forall i :: 0 <= i < 8 ==> wormhole[i].provided == TREE_PROVIDES[i + 13]
    requires forall i :: 0 <= i < 5 ==> sublight[i].options == [sublight[i + 1]]
    requires forall i :: 0 <= i < 6 ==> foldspace[i].options == [foldspace[i + 1]]
    requires forall i :: 0 <= i < 7 ==> wormhole[i].options == [wormhole[i + 1]]
    requires sublight[5].options == [foldspace[0], wormhole[0]]
    requires foldspace[6].options == [] && wormhole[7].options == []
    ensures TreeShape(sublight + foldspace + wormhole)
  {
    var nodes := sublight + foldspace + wormhole;
    forall i | 0 <= i < TREE_SIZE
      ensures |nodes[i].options| == |TREE_OPTIONS[i]|
      ensures forall k :: 0 <= k < |TREE_OPTIONS[i]| ==>
                TREE_OPTIONS[i][k] < TREE_SIZE && nodes[i].options[k] == nodes[TREE_OPTIONS[i][k]]
    {
      if i < 5 {
        assert nodes[i] == sublight[i] && nodes[i + 1] == sublight[i + 1];
      } else if i == 5 {
        assert nodes[6] == foldspace[0] && nodes[13] == wormhole[0];
      } else if i < 13 {
        assert nodes[i] == foldspace[i - 6];
        if i < 12 { assert nodes[i + 1] == foldspace[i - 5]; }
      } else {
        assert nodes[i] == wormhole[i - 13];
        if i < 20 { assert nodes[i + 1] == wormhole[i - 12]; }
      }
    }
    forall i, j | 0 <= i < j < |nodes|
      ensures nodes[i] != nodes[j]
    {
      if j < 6 {
      } else if i < 6 && j < 13 {
        assert nodes[i] == sublight[i] && nodes[j] == foldspace[j - 6];
      } else if i < 6 {
        assert nodes[i] == sublight[i] && nodes[j] == wormhole[j - 13];
      } else if j < 13 {
        assert nodes[i] == foldspace[i - 6] && nodes[j] == foldspace[j - 6];
      } else if i < 13 {
        assert nodes[i] == foldspace[i - 6] && nodes[j] == wormhole[j - 13];
      } else {
        assert nodes[i] == wormhole[i - 13] && nodes[j] == wormhole[j - 13];
      }
    }
  }

  // ---------------------------------------------------------------------------
  // Properties of the tree.

  /** Every option index is larger than the index of the node it hangs from. */
  ghost predicate PointsForward(opts: seq<seq<nat>>)
  {
    forall i :: 0 <= i < |opts| ==> forall k :: 0 <= k < |opts[i]| ==> i < opts[i][k]
  }

  /** Every option of a tree node was created after it. */
  lemma TreePointsForward()
    ensures PointsForward(TREE_OPTIONS)
  {
  }

  /** The first foldspace node is the only branching point; every other node
      has one option except the ends of the two chains, which have none. */
  lemma BranchingShape(i: nat)
    requires i < TREE_SIZE
    ensures |TREE_OPTIONS[i]| == (if i == 5 then 2 else if i == 12 || i == 20 then 0 else 1)
    ensures i == 5 ==> TREE_PROVIDES[i] == [FOLDSPACE_I]
  {
  }

  /** The root provides exactly one sublight engine and one chassis. */
  lemma RootProvidesChassisAndEngine(nodes: seq<ScienceNode>)
    requires TreeShape(nodes)
    ensures nodes[0].provided == [Sublight(0.2, 10.0), SuperheavySpacecraft(2, 5)]
  {
  }

  function IndexOf(nodes: seq<ScienceNode>, n: ScienceNode): (i: nat)
    requires n in nodes
    ensures i < |nodes| && nodes[i] == n
  {
    if nodes[0] == n then 0 else 1 + IndexOf(nodes[1..], n)
  }

  /** p is a walk along options edges. */
  ghost predicate IsPath(p: seq<ScienceNode>)
    reads p
  {
    forall k :: 0 <= k < |p| - 1 ==> p[k + 1] in p[k].options
  }

  lemma EdgeIncreasesIndex(nodes: seq<ScienceNode>, opts: seq<seq<nat>>, a: ScienceNode, b: ScienceNode)
    requires Distinct(nodes) && Linked(nodes, opts) && PointsForward(opts)
    requires a in nodes && b in a.options
    ensures b in nodes && IndexOf(nodes, a) < IndexOf(nodes, b)
  {
    var i := IndexOf(nodes, a);
    var k :| 0 <= k < |a.options| && a.options[k] == b;
    var j := opts[i][k];
    assert b == nodes[j];
  }

  /** Along any walk from a node, indices strictly increase. */
  lemma {:induction false} PathIncreases(nodes: seq<ScienceNode>, opts: seq<seq<nat>>, p: seq<ScienceNode>)
    requires Distinct(nodes) && Linked(nodes, opts) && PointsForward(opts)
    requires IsPath(p) && |p| >= 2 && p[0] in nodes
    ensures p[|p| - 1] in nodes && IndexOf(nodes, p[0]) < IndexOf(nodes, p[|p| - 1])
    decreases |p|
  {
    assert p[1] in p[0].options;
    EdgeIncreasesIndex(nodes, opts, p[0], p[1]);
    if |p| > 2 {
      var q := p[1..];
      assert forall k :: 0 <= k < |q| ==> q[k] == p[k + 1];
      assert IsPath(q);
      PathIncreases(nodes, opts, q);
      assert q[|q| - 1] == p[|p| - 1];
    }
  }

  /** The graph reachable from TECH_TREE is acyclic: no walk of one or more
      steps returns to its start. */
  lemma Acyclic(nodes: seq<ScienceNode>, p: seq<ScienceNode>)
    requires TreeShape(nodes) && IsPath(p) && |p| >= 2 && p[0] in nodes
    ensures p[0] != p[|p| - 1]
  {
    TreePointsForward();
    PathIncreases(nodes, TREE_OPTIONS, p);
  }
}
