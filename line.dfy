/**
 * The edges of a research-flow image. A `Line` joins a parent node's centre to a
 * child node's centre and may only be built for a related pair;
 * `GenerateSvgLines` reverses the caller's list of phases in place and emits
 * one line per (child, parent id, matching node of the preceding phase).
 */
module LineModel {
  import opened Errors
  import opened NodeModel
  import opened Sequences

  /** A line's end points and stroke; its markup is these values in a fixed template. */
  datatype Line = Line(parentX: int, parentY: int, childX: int, childY: int,
                       stroke: string := "gray", strokeWidth: int := 1)

  /**
   * The `Line` constructor: refuses a parent that is not among the child's
   * parents, and otherwise captures both centres.
   */
  function NewLine(parent: Node, child: Node, stroke: string := "gray", strokeWidth: int := 1): (r: Result<Line>)
    reads parent, child
    ensures r.Ok? <==> parent.id in child.parentIds
    ensures r.Err? ==> r.error == ArgError(parent.id, child.id)
    ensures r.Ok? ==> r.value.parentX == parent.cx && r.value.parentY == parent.cy
    ensures r.Ok? ==> r.value.childX == child.cx && r.value.childY == child.cy
    ensures r.Ok? ==> r.value.stroke == stroke && r.value.strokeWidth == strokeWidth
  {
    if parent.id !in child.parentIds then Err(ArgError(parent.id, child.id))
    else Ok(Line(parent.cx, parent.cy, child.cx, child.cy, stroke, strokeWidth))
  }

  // ---- The list reversal done by `nodes_each_pahse.reverse()` ----

  function Reversed<T>(s: seq<T>): (r: seq<T>)
    ensures |r| == |s|
    ensures forall k :: 0 <= k < |s| ==> r[k] == s[|s| - 1 - k]
  {
    if s == [] then [] else [s[|s| - 1]] + Reversed(s[..|s| - 1])
  }

  /** Python's in-place `list.reverse()`. */
  method ReverseInPlace<T>(a: array<T>)
    modifies a
    ensures a[..] == Reversed(old(a[..]))
  {
    var lo, hi := 0, a.Length - 1;
    while lo < hi
      invariant 0 <= lo && lo + hi == a.Length - 1
      invariant forall k :: 0 <= k < a.Length ==>
                  a[k] == if lo <= k <= hi then old(a[k]) else old(a[a.Length - 1 - k])
    {
      a[lo], a[hi] := a[hi], a[lo];
      lo, hi := lo + 1, hi - 1;
    }
  }

  // ---- What the edge enumeration reads of each node ----

  /** The fields of a node that the edge enumeration reads. */
  datatype NodeView = NodeView(id: int, parentIds: seq<int>, cx: int, cy: int)

  function View(n: Node): NodeView
    reads n
  {
    NodeView(n.id, n.parentIds, n.cx, n.cy)
  }

  function PhaseView(p: seq<Node>): (v: seq<NodeView>)
    reads p
    ensures |v| == |p| && forall k :: 0 <= k < |p| ==> v[k] == View(p[k])
  {
    if p == [] then [] else PhaseView(p[..|p| - 1]) + [View(p[|p| - 1])]
  }

  /** A value snapshot of every phase's nodes. */
  function Views(ps: seq<seq<Node>>): (v: seq<seq<NodeView>>)
    reads NodesOf(ps)
    ensures |v| == |ps| && forall i :: 0 <= i < |ps| ==> v[i] == PhaseView(ps[i])
  {
    if ps == [] then []
    else
      assert NodesOf(ps[..|ps| - 1]) <= NodesOf(ps) by {
        forall i, k | 0 <= i < |ps| - 1 && 0 <= k < |ps[i]| ensures ps[i][k] in NodesOf(ps) { }
      }
      Views(ps[..|ps| - 1]) + [PhaseView(ps[|ps| - 1])]
  }

  // ---- The edges, in the order the nested loops emit them ----

  /**
   * An edge by position, in the original (not reversed) phase order: node
   * `child` of phase `phase`, its parent id number `slot`, and node `parent`
   * of phase `phase - 1`.
   */
  datatype Edge = Edge(phase: nat, child: nat, slot: nat, parent: nat)

  /** The triple is real: the parent node's id is that parent id of the child. */
  ghost predicate IsEdge(v: seq<seq<NodeView>>, e: Edge) {
    && 1 <= e.phase < |v|
    && e.child < |v[e.phase]|
    && e.slot < |v[e.phase][e.child].parentIds|
    && e.parent < |v[e.phase - 1]|
    && v[e.phase - 1][e.parent].id == v[e.phase][e.child].parentIds[e.slot]
  }

  /** The innermost loop: the edges of parent id `s` of child `c`, over the first `m` nodes of the preceding phase. */
  function SlotEdges(v: seq<seq<NodeView>>, i: nat, c: nat, s: nat, m: nat): seq<Edge>
    requires 1 <= i < |v| && c < |v[i]| && s < |v[i][c].parentIds| && m <= |v[i - 1]|
  {
    if m == 0 then []
    else
      SlotEdges(v, i, c, s, m - 1)
      + (if v[i - 1][m - 1].id == v[i][c].parentIds[s] then [Edge(i, c, s, m - 1)] else [])
  }

  /** The middle loop's parts: one per parent id of child `c` of phase `i`. */
  function SlotParts(v: seq<seq<NodeView>>, i: nat, c: nat): (r: seq<seq<Edge>>)
    requires 1 <= i < |v| && c < |v[i]|
    ensures |r| == |v[i][c].parentIds|
  {
    seq(|v[i][c].parentIds|, s requires 0 <= s < |v[i][c].parentIds| => SlotEdges(v, i, c, s, |v[i - 1]|))
  }

  /** Every edge of child `c` of phase `i`. */
  function ChildEdges(v: seq<seq<NodeView>>, i: nat, c: nat): seq<Edge>
    requires 1 <= i < |v| && c < |v[i]|
  {
    Flatten(SlotParts(v, i, c))
  }

  /** The loop over a phase's nodes: one part per node. */
  function ChildParts(v: seq<seq<NodeView>>, i: nat): (r: seq<seq<Edge>>)
    requires 1 <= i < |v|
    ensures |r| == |v[i]|
  {
    seq(|v[i]|, c requires 0 <= c < |v[i]| => ChildEdges(v, i, c))
  }

  /** Every edge whose child is in phase `i`. */
  function PhaseEdges(v: seq<seq<NodeView>>, i: nat): seq<Edge>
    requires 1 <= i < |v|
  {
    Flatten(ChildParts(v, i))
  }

  /** The outer loop, over the phases latest first: part `q` is phase `|v| - 1 - q`; phase 0 starts none. */
  function PhaseParts(v: seq<seq<NodeView>>): (r: seq<seq<Edge>>)
    ensures |r| == |v|
  {
    seq(|v|, q requires 0 <= q < |v| => if q < |v| - 1 then PhaseEdges(v, |v| - 1 - q) else [])
  }

  /** Every edge of the image, in the order the loops emit them. */
  function Edges(v: seq<seq<NodeView>>): seq<Edge>
  {
    Flatten(PhaseParts(v))
  }

  /** The line drawn for an edge: gray, width 1, from the parent's centre to the child's. */
  function EdgeLine(v: seq<seq<NodeView>>, e: Edge): Line {
    if 1 <= e.phase < |v| && e.child < |v[e.phase]| && e.parent < |v[e.phase - 1]| then
      var parent, child := v[e.phase - 1][e.parent], v[e.phase][e.child];
      Line(parent.cx, parent.cy, child.cx, child.cy)
    else Line(0, 0, 0, 0)
  }

  function LinesOf(v: seq<seq<NodeView>>, es: seq<Edge>): seq<Line>
  {
    seq(|es|, k requires 0 <= k < |es| => EdgeLine(v, es[k]))
  }

  lemma LinesOfAppend(v: seq<seq<NodeView>>, a: seq<Edge>, b: seq<Edge>)
    ensures LinesOf(v, a + b) == LinesOf(v, a) + LinesOf(v, b)
  {
    assert forall k :: 0 <= k < |a| + |b| ==> (a + b)[k] == if k < |a| then a[k] else b[k - |a|];
  }

  /** One more part of a loop level appends that part's lines. */
  lemma LinesOfStep(v: seq<seq<NodeView>>, parts: seq<seq<Edge>>, j: nat)
    requires j < |parts|
    ensures LinesOf(v, Flatten(parts[..j + 1])) == LinesOf(v, Flatten(parts[..j])) + LinesOf(v, parts[j])
  {
    FlattenStep(parts, j);
    LinesOfAppend(v, Flatten(parts[..j]), parts[j]);
  }

  // ---- What the enumeration promises: every edge, once, latest phase first ----

  lemma {:induction false} SlotEdgesMember(v: seq<seq<NodeView>>, i: nat, c: nat, s: nat, m: nat, e: Edge)
    requires 1 <= i < |v| && c < |v[i]| && s < |v[i][c].parentIds| && m <= |v[i - 1]|
    ensures e in SlotEdges(v, i, c, s, m) <==> IsEdge(v, e) && e.phase == i && e.child == c && e.slot == s && e.parent < m
  {
    if m > 0 {
      var prev := SlotEdges(v, i, c, s, m - 1);
      var here := if v[i - 1][m - 1].id == v[i][c].parentIds[s] then [Edge(i, c, s, m - 1)] else [];
      assert SlotEdges(v, i, c, s, m) == prev + here;
      SlotEdgesMember(v, i, c, s, m - 1, e);
      assert e in prev + here <==> e in prev || e in here;
    }
  }

  lemma {:induction false} SlotEdgesDistinct(v: seq<seq<NodeView>>, i: nat, c: nat, s: nat, m: nat)
    requires 1 <= i < |v| && c < |v[i]| && s < |v[i][c].parentIds| && m <= |v[i - 1]|
    ensures Distinct(SlotEdges(v, i, c, s, m))
  {
    if m > 0 {
      var prev := SlotEdges(v, i, c, s, m - 1);
      var here := if v[i - 1][m - 1].id == v[i][c].parentIds[s] then [Edge(i, c, s, m - 1)] else [];
      forall x | x in prev ensures x !in here {
        SlotEdgesMember(v, i, c, s, m - 1, x);
      }
      SlotEdgesDistinct(v, i, c, s, m - 1);
      DistinctAppend(prev, here);
    }
  }

  lemma ChildEdgesMember(v: seq<seq<NodeView>>, i: nat, c: nat, e: Edge)
    requires 1 <= i < |v| && c < |v[i]|
    ensures e in ChildEdges(v, i, c) <==> IsEdge(v, e) && e.phase == i && e.child == c
  {
    var parts := SlotParts(v, i, c);
    FlattenMember(parts, e);
    if e in ChildEdges(v, i, c) {
      var s :| 0 <= s < |parts| && e in parts[s];
      SlotEdgesMember(v, i, c, s, |v[i - 1]|, e);
    }
    if IsEdge(v, e) && e.phase == i && e.child == c {
      SlotEdgesMember(v, i, c, e.slot, |v[i - 1]|, e);
      assert e in parts[e.slot];
    }
  }

  lemma ChildEdgesDistinct(v: seq<seq<NodeView>>, i: nat, c: nat)
    requires 1 <= i < |v| && c < |v[i]|
    ensures Distinct(ChildEdges(v, i, c))
  {
    var parts := SlotParts(v, i, c);
    forall s | 0 <= s < |parts| ensures Distinct(parts[s]) {
      SlotEdgesDistinct(v, i, c, s, |v[i - 1]|);
    }
    forall s1, s2, x | 0 <= s1 < s2 < |parts| && x in parts[s1] ensures x !in parts[s2] {
      SlotEdgesMember(v, i, c, s1, |v[i - 1]|, x);
      SlotEdgesMember(v, i, c, s2, |v[i - 1]|, x);
    }
    FlattenDistinct(parts);
  }

  lemma PhaseEdgesMember(v: seq<seq<NodeView>>, i: nat, e: Edge)
    requires 1 <= i < |v|
    ensures e in PhaseEdges(v, i) <==> IsEdge(v, e) && e.phase == i
  {
    var parts := ChildParts(v, i);
    FlattenMember(parts, e);
    if e in PhaseEdges(v, i) {
      var c :| 0 <= c < |parts| && e in parts[c];
      ChildEdgesMember(v, i, c, e);
    }
    if IsEdge(v, e) && e.phase == i {
      ChildEdgesMember(v, i, e.child, e);
      assert e in parts[e.child];
    }
  }

  lemma PhaseEdgesDistinct(v: seq<seq<NodeView>>, i: nat)
    requires 1 <= i < |v|
    ensures Distinct(PhaseEdges(v, i))
  {
    var parts := ChildParts(v, i);
    forall c | 0 <= c < |parts| ensures Distinct(parts[c]) {
      ChildEdgesDistinct(v, i, c);
    }
    forall c1, c2, x | 0 <= c1 < c2 < |parts| && x in parts[c1] ensures x !in parts[c2] {
      ChildEdgesMember(v, i, c1, x);
      ChildEdgesMember(v, i, c2, x);
    }
    FlattenDistinct(parts);
  }

  /** Part `q` of the outer loop holds exactly the edges of phase `|v| - 1 - q`. */
  lemma PhasePartsMember(v: seq<seq<NodeView>>, q: nat, e: Edge)
    requires q < |v|
    ensures e in PhaseParts(v)[q] <==> IsEdge(v, e) && e.phase == |v| - 1 - q
  {
    if q < |v| - 1 {
      PhaseEdgesMember(v, |v| - 1 - q, e);
    }
  }

  /**
   * The enumeration lists exactly the real parent/child pairs between
   * neighbouring phases, each one once: a line is drawn for every matching
   * node of the preceding phase, and never twice for the same triple.
   */
  lemma EdgesExactlyOnce(v: seq<seq<NodeView>>, e: Edge)
    ensures e in Edges(v) <==> IsEdge(v, e)
    ensures Distinct(Edges(v))
  {
    var parts := PhaseParts(v);
    FlattenMember(parts, e);
    if e in Edges(v) {
      var q :| 0 <= q < |parts| && e in parts[q];
      PhasePartsMember(v, q, e);
    }
    if IsEdge(v, e) {
      PhasePartsMember(v, |v| - 1 - e.phase, e);
    }
    forall q | 0 <= q < |parts| ensures Distinct(parts[q]) {
      if q < |v| - 1 {
        PhaseEdgesDistinct(v, |v| - 1 - q);
      }
    }
    forall q1, q2, x | 0 <= q1 < q2 < |parts| && x in parts[q1] ensures x !in parts[q2] {
      PhasePartsMember(v, q1, x);
      PhasePartsMember(v, q2, x);
    }
    FlattenDistinct(parts);
  }

  /** Edges come latest phase first: the outer loop walks the reversed list. */
  lemma EdgesDescending(v: seq<seq<NodeView>>, a: nat, b: nat)
    requires a < b < |Edges(v)|
    ensures Edges(v)[a].phase >= Edges(v)[b].phase
  {
    var parts := PhaseParts(v);
    FlattenOrder(parts, a, b);
    var qa, qb :| 0 <= qa <= qb < |parts| && Edges(v)[a] in parts[qa] && Edges(v)[b] in parts[qb];
    PhasePartsMember(v, qa, Edges(v)[a]);
    PhasePartsMember(v, qb, Edges(v)[b]);
  }

  /** An image with at most one phase has no lines. */
  lemma SinglePhaseHasNoEdges(v: seq<seq<NodeView>>)
    requires |v| <= 1
    ensures Edges(v) == []
  {
    if |v| == 1 {
      assert PhaseParts(v) == [[]];
      assert PhaseParts(v)[..0] == [];
    }
  }

  /** The innermost loop: the lines of parent id `s` of child `c` of phase `i`. */
  method SlotLines(ghost v: seq<seq<NodeView>>, ghost i: nat, ghost c: nat, node: Node, s: nat, prePhase: seq<Node>)
    returns (lines: seq<Line>)
    requires 1 <= i < |v| && c < |v[i]| && v[i][c] == View(node) && v[i - 1] == PhaseView(prePhase)
    requires s < |node.parentIds|
    ensures lines == LinesOf(v, SlotEdges(v, i, c, s, |prePhase|))
  {
    var parentId := node.parentIds[s];
    lines := [];
    for m := 0 to |prePhase|
      invariant lines == LinesOf(v, SlotEdges(v, i, c, s, m))
    {
      var nodePrePhase := prePhase[m];
      ghost var e := Edge(i, c, s, m);
      assert v[i - 1][m] == View(nodePrePhase);
      ghost var done := SlotEdges(v, i, c, s, m);
      if parentId == nodePrePhase.id {
        var line := NewLine(nodePrePhase, node).value;
        assert SlotEdges(v, i, c, s, m + 1) == done + [e];
        assert line == EdgeLine(v, e);
        assert LinesOf(v, [e]) == [line];
        LinesOfAppend(v, done, [e]);
        lines := lines + [line];
      } else {
        assert SlotEdges(v, i, c, s, m + 1) == done + [];
      }
    }
  }

  /** The middle loop: the lines of every parent id of child `c` of phase `i`. */
  method ChildLines(ghost v: seq<seq<NodeView>>, ghost i: nat, ghost c: nat, node: Node, prePhase: seq<Node>)
    returns (lines: seq<Line>)
    requires 1 <= i < |v| && c < |v[i]| && v[i][c] == View(node) && v[i - 1] == PhaseView(prePhase)
    ensures lines == LinesOf(v, ChildEdges(v, i, c))
  {
    ghost var parts := SlotParts(v, i, c);
    lines := [];
    for s := 0 to |node.parentIds|
      invariant lines == LinesOf(v, Flatten(parts[..s]))
    {
      var more := SlotLines(v, i, c, node, s, prePhase);
      LinesOfStep(v, parts, s);
      lines := lines + more;
    }
    assert parts[..|parts|] == parts;
  }

  /** The loop over the nodes of phase `i`, whose preceding phase is `prePhase`. */
  method PhaseLines(ghost v: seq<seq<NodeView>>, ghost i: nat, nodes: seq<Node>, prePhase: seq<Node>)
    returns (lines: seq<Line>)
    requires 1 <= i < |v| && v[i] == PhaseView(nodes) && v[i - 1] == PhaseView(prePhase)
    ensures lines == LinesOf(v, PhaseEdges(v, i))
  {
    ghost var parts := ChildParts(v, i);
    lines := [];
    for c := 0 to |nodes|
      invariant lines == LinesOf(v, Flatten(parts[..c]))
    {
      var node := nodes[c];
      var more := ChildLines(v, i, c, node, prePhase);
      LinesOfStep(v, parts, c);
      lines := lines + more;
    }
    assert parts[..|parts|] == parts;
  }

  /** `v` snapshots the phases of `reversed` in the opposite order. */
  ghost predicate ViewsReversed(v: seq<seq<NodeView>>, reversed: seq<seq<Node>>)
    reads set p, k | 0 <= p < |reversed| && 0 <= k < |reversed[p]| :: reversed[p][k]
  {
    |reversed| == |v| && forall k :: 0 <= k < |v| ==> v[|v| - 1 - k] == PhaseView(reversed[k])
  }

  /** The outer loop of `generate_svg_lines`, over the phases in reversed order. */
  method LaterLines(ghost v: seq<seq<NodeView>>, reversed: seq<seq<Node>>) returns (lines: seq<Line>)
    requires ViewsReversed(v, reversed)
    ensures lines == LinesOf(v, Edges(v))
  {
    ghost var parts := PhaseParts(v);
    var phaseNum := |reversed|;
    lines := [];
    for index := 0 to phaseNum
      invariant lines == LinesOf(v, Flatten(parts[..index]))
    {
      LinesOfStep(v, parts, index);
      if index < phaseNum - 1 {
        var nodes := reversed[index];
        var prePhase := reversed[index + 1];
        ghost var i := phaseNum - 1 - index;
        var more := PhaseLines(v, i, nodes, prePhase);
        lines := lines + more;
      } else {
        assert parts[index] == [];
      }
    }
    assert parts[..|parts|] == parts;
  }

  lemma ViewsOfReversed(original: seq<seq<Node>>, reversed: seq<seq<Node>>)
    requires reversed == Reversed(original)
    ensures ViewsReversed(Views(original), reversed)
  {
    forall k | 0 <= k < |original| ensures Views(original)[|original| - 1 - k] == PhaseView(reversed[k]) {
      assert reversed[k] == original[|original| - 1 - k];
    }
  }

  /**
   * `Line.generate_svg_lines`: reverses the caller's list in place and returns
   * the lines of every edge, latest phase first.
   */
  method GenerateSvgLines(phases: array<seq<Node>>) returns (lines: seq<Line>)
    modifies phases
    ensures phases[..] == Reversed(old(phases[..]))
    ensures var v := old(Views(phases[..])); lines == LinesOf(v, Edges(v))
  {
    ghost var original := phases[..];
    ghost var v := Views(original);
    ReverseInPlace(phases);
    var reversed := phases[..];
    assert Views(original) == v;
    ViewsOfReversed(original, reversed);
    lines := LaterLines(v, reversed);
  }
}
