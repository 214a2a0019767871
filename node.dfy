/**
 * The node of a research-flow image: a mutable record whose position, radius,
 * colour, link, id and parent ids are updated through setters, and which renders
 * as a circle (inside an anchor when it has a link) with a text label above it.
 */
module NodeModel {
  import opened Sorting

  /** The circle markup of a node, as its attribute values. */
  datatype Circle = Circle(cx: int, cy: int, r: int, fill: string, stroke: string, strokeWidth: int)

  /** `generate_svg_component`'s output: the bare circle, or the circle inside `<a href=...>`. */
  datatype NodeMark = Plain(circle: Circle) | Linked(href: string, circle: Circle)

  /** The `Label` record (label.py): text value, position, anchor and font size. */
  datatype LabelMark = LabelMark(value: string, x: int, y: int, textAnchor: string := "middle", fontSize: int := 12)

  /** The distance between the top of a node's circle and its label. */
  const LabelGap: int := 5

  class Node {
    var id: int
    var parentIds: seq<int>
    const startTime: int
    const nodeName: string
    const status: string
    var cx: int
    var cy: int
    var cr: int
    var fill: string
    var href: string
    const stroke: string
    const strokeWidth: int

    /** Stores every argument as given, except `parentIds`, which it stores sorted. */
    constructor (id: int, parentIds: seq<int>, startTime: int, nodeName: string, status: string,
                 cx: int := 0, cy: int := 0, cr: int := 0, fill: string := "", href: string := "",
                 stroke: string := "black", strokeWidth: int := 2)
      ensures this.id == id && this.parentIds == SortInts(parentIds)
      ensures Ascending(this.parentIds) && multiset(this.parentIds) == multiset(parentIds)
      ensures this.startTime == startTime && this.nodeName == nodeName && this.status == status
      ensures this.cx == cx && this.cy == cy && this.cr == cr
      ensures this.fill == fill && this.href == href
      ensures this.stroke == stroke && this.strokeWidth == strokeWidth
    {
      SortIntsCorrect(parentIds);
      this.id := id;
      this.startTime := startTime;
      this.parentIds := SortInts(parentIds);
      this.nodeName := nodeName;
      this.status := status;
      this.cx := cx;
      this.cy := cy;
      this.cr := cr;
      this.fill := fill;
      this.href := href;
      this.stroke := stroke;
      this.strokeWidth := strokeWidth;
    }

    method SetId(v: int)
      modifies this`id
      ensures id == v
    {
      id := v;
    }

    method SetCx(v: int)
      modifies this`cx
      ensures cx == v
    {
      cx := v;
    }

    method SetCy(v: int)
      modifies this`cy
      ensures cy == v
    {
      cy := v;
    }

    method SetCr(v: int)
      modifies this`cr
      ensures cr == v
    {
      cr := v;
    }

    method SetFill(v: string)
      modifies this`fill
      ensures fill == v
    {
      fill := v;
    }

    method SetHref(v: string)
      modifies this`href
      ensures href == v
    {
      href := v;
    }

    /** Stores the list as given: unlike the constructor, this setter does not sort. */
    method SetParentIds(v: seq<int>)
      modifies this`parentIds
      ensures parentIds == v
    {
      parentIds := v;
    }

    /** `generate_svg_component`: the circle with the node's current attributes, wrapped in a link exactly when `href` is not empty. */
    function Marker(): (m: NodeMark)
      reads this
      ensures m.Linked? <==> href != ""
      ensures m.Linked? ==> m.href == href
      ensures m.circle == Circle(cx, cy, cr, fill, stroke, strokeWidth)
    {
      var circle := Circle(cx, cy, cr, fill, stroke, strokeWidth);
      if href == "" then Plain(circle) else Linked(href, circle)
    }

    /** `get_lable_svg_component`: the node's name, centred on its x, `LabelGap` above the top of its circle. */
    function Label(): (l: LabelMark)
      reads this
      ensures l.value == nodeName && l.x == cx
      ensures l.y + LabelGap == cy - cr
      ensures cr >= 0 ==> l.y < cy - cr
      ensures l.textAnchor == "middle" && l.fontSize == 12
    {
      LabelMark(nodeName, cx, cy - (cr + LabelGap))
    }
  }

  /** Every node of a list of phases. */
  function NodesOf(ps: seq<seq<Node>>): set<Node> {
    set i, k | 0 <= i < |ps| && 0 <= k < |ps[i]| :: ps[i][k]
  }

  lemma NodesOfPhase(ps: seq<seq<Node>>, i: nat)
    requires i < |ps|
    ensures forall n :: n in ps[i] ==> n in NodesOf(ps)
  {
    forall n | n in ps[i] ensures n in NodesOf(ps) {
      var k :| 0 <= k < |ps[i]| && ps[i][k] == n;
    }
  }

  lemma NodesOfPrefix(ps: seq<seq<Node>>, j: nat)
    requires j <= |ps|
    ensures NodesOf(ps[..j]) <= NodesOf(ps)
  {
    forall n | n in NodesOf(ps[..j]) ensures n in NodesOf(ps) {
      var i, k :| 0 <= i < j && 0 <= k < |ps[..j][i]| && ps[..j][i][k] == n;
      assert ps[..j][i] == ps[i];
    }
  }

  /** A node built with only the required arguments carries the documented defaults. */
  method DefaultNode(id: int, parentIds: seq<int>, startTime: int, nodeName: string, status: string)
    returns (n: Node)
    ensures n.cx == 0 && n.cy == 0 && n.cr == 0
    ensures n.fill == "" && n.href == "" && n.stroke == "black" && n.strokeWidth == 2
    ensures |n.parentIds| == |parentIds|
    ensures parentIds != [] ==> n.parentIds[0] in parentIds && forall x :: x in parentIds ==> n.parentIds[0] <= x
  {
    n := new Node(id, parentIds, startTime, nodeName, status);
    if parentIds != [] {
      SortIntsHeadIsMin(parentIds);
    }
  }
}
