/**
 * The renderer's driver (`FlowDrawer`): it orders the phases by sequence
 * number, builds the nodes of each phase, orders them, places them in their
 * columns and measures the image.
 */
module FlowDrawer {
  import opened Errors
  import opened Sorting
  import opened NodeModel
  import Color
  import Ordering
  import LineModel
  import FrameModel
  import Sequences

  datatype Option<T> = None | Some(value: T)

  /** The constructor's sizes, with their defaults. */
  datatype Config = Config(wholeMaxWidth: int := 900, headerHeight: int := 100, topMargin: int := 50,
                           bottomMargin: int := 50, betweenNodeVerticalLength: int := 100)

  /** One entry of a phase's `nodes` list. */
  datatype RawNode = RawNode(nodeId: int, parentIds: seq<int>, nodeName: string, startTime: int,
                             status: string, link: string)

  /** One entry of `phase_data`: its optional `seq_number`, its `phase_name` and its nodes. */
  datatype PhaseData = PhaseData(seqNumber: Option<int>, phaseName: string, nodes: seq<RawNode>)

  // ---- `sort_phase_data_by_seq_number` ----

  /** The sort key `x.get('seq_number', float('inf'))`: a missing number ranks above every number. */
  function SeqKey(p: PhaseData): Rank {
    if p.seqNumber.Some? then At(p.seqNumber.value) else Top
  }

  /** `sorted(data_list, key=...)`: the phases ascending by sequence number, a permutation of the input. */
  function SortPhaseDataBySeqNumber(ps: seq<PhaseData>): (r: seq<PhaseData>)
    ensures |r| == |ps| && multiset(r) == multiset(ps)
    ensures forall i, j :: 0 <= i < j < |r| ==> RankLe(SeqKey(r[i]), SeqKey(r[j]))
  {
    SortByCorrect(ps, SeqKey);
    SortBy(ps, SeqKey)
  }

  /**
   * Of two phases in the sorted list, a numbered one never follows an
   * unnumbered one, and two numbered ones are in ascending order.
   */
  lemma UnnumberedPhasesLast(ps: seq<PhaseData>, i: nat, j: nat)
    requires i < j < |ps|
    ensures var r := SortPhaseDataBySeqNumber(ps);
            (r[i].seqNumber.None? ==> r[j].seqNumber.None?)
            && (r[i].seqNumber.Some? && r[j].seqNumber.Some? ==> r[i].seqNumber.value <= r[j].seqNumber.value)
  {
    var r := SortPhaseDataBySeqNumber(ps);
    assert RankLe(SeqKey(r[i]), SeqKey(r[j]));
  }

  /** The sort is stable: phases with the same key keep their input order. */
  lemma PhaseSortStable(ps: seq<PhaseData>, k: Rank)
    ensures WithKey(SortPhaseDataBySeqNumber(ps), SeqKey, k) == WithKey(ps, SeqKey, k)
  {
    SortByStable(ps, SeqKey, k);
  }

  // ---- `get_nodes` ----

  /**
   * The fields of `n` that come from `raw` and that placing never changes: its
   * id, its parent ids sorted, name, start time, status, link, and the stroke
   * chosen by the status.
   */
  ghost predicate RecordOf(n: Node, raw: RawNode)
    reads n`id, n`parentIds, n`href
  {
    && n.id == raw.nodeId && n.parentIds == SortInts(raw.parentIds)
    && n.nodeName == raw.nodeName && n.startTime == raw.startTime && n.status == raw.status
    && n.href == raw.link
    && (if raw.status == "complete" then n.stroke == "black" && n.strokeWidth == 1
        else n.stroke == "red" && n.strokeWidth == 2)
  }

  /** `n` is the node `get_nodes` builds from `raw`: its record, and no position or fill yet. */
  ghost predicate BuiltFrom(n: Node, raw: RawNode)
    reads n
  {
    RecordOf(n, raw) && n.cx == 0 && n.cy == 0 && n.cr == 0 && n.fill == ""
  }

  /** `built` holds one list per phase of `sorted`, node `k` of phase `i` carrying the record of raw node `k` of phase `i`. */
  ghost predicate RecordsOf(built: seq<seq<Node>>, sorted: seq<PhaseData>)
    reads NodesOf(built)`id, NodesOf(built)`parentIds, NodesOf(built)`href
  {
    && |built| == |sorted|
    && (forall i :: 0 <= i < |sorted| ==> |built[i]| == |sorted[i].nodes|)
    && forall i, k :: 0 <= i < |sorted| && 0 <= k < |built[i]| ==>
         assert built[i][k] in NodesOf(built);
         RecordOf(built[i][k], sorted[i].nodes[k])
  }

  /** The loop body of `get_nodes`: the stroke rule, then the constructor on the re-sorted parent ids. */
  method NewNode(raw: RawNode) returns (node: Node)
    ensures fresh(node) && BuiltFrom(node, raw)
  {
    var stroke, strokeWidth;
    if raw.status == "complete" {
      stroke, strokeWidth := "black", 1;
    } else {
      stroke, strokeWidth := "red", 2;
    }
    SortIntsCorrect(raw.parentIds);
    SortIntsCorrect(SortInts(raw.parentIds));
    node := new Node(raw.nodeId, SortInts(raw.parentIds), raw.startTime, raw.nodeName, raw.status,
                     href := raw.link, stroke := stroke, strokeWidth := strokeWidth);
  }

  /** `get_nodes`: one new node per raw node, in input order. */
  method GetNodes(phase: PhaseData) returns (nodes: seq<Node>)
    ensures |nodes| == |phase.nodes|
    ensures forall k :: 0 <= k < |nodes| ==> fresh(nodes[k]) && BuiltFrom(nodes[k], phase.nodes[k])
    ensures forall a, b :: 0 <= a < b < |nodes| ==> nodes[a] != nodes[b]
  {
    nodes := [];
    for k := 0 to |phase.nodes|
      invariant |nodes| == k
      invariant forall j :: 0 <= j < k ==> fresh(nodes[j]) && BuiltFrom(nodes[j], phase.nodes[j])
      invariant forall a, b :: 0 <= a < b < k ==> nodes[a] != nodes[b]
    {
      var node := NewNode(phase.nodes[k]);
      nodes := nodes + [node];
    }
  }

  // ---- `set_node_location` ----

  /** The y of the `k`-th node of a column: the first sits at the top margin, each next one a vertical step lower. */
  function NodeY(cfg: Config, k: nat): int {
    if k == 0 then cfg.headerHeight + cfg.topMargin else NodeY(cfg, k - 1) + cfg.betweenNodeVerticalLength
  }

  /** The closed form: `k` steps below the top margin, and going down the column when the step is positive. */
  lemma {:induction false} NodeYClosedForm(cfg: Config, k: nat)
    ensures NodeY(cfg, k) == cfg.headerHeight + cfg.topMargin + k * cfg.betweenNodeVerticalLength
    ensures cfg.betweenNodeVerticalLength > 0 && k > 0 ==> NodeY(cfg, k - 1) < NodeY(cfg, k)
  {
    if k > 0 {
      NodeYClosedForm(cfg, k - 1);
    }
  }

  /** The ys of the first `n` nodes of a column, top to bottom. */
  function Column(cfg: Config, n: nat): (c: seq<int>)
    ensures |c| == n
  {
    if n == 0 then [] else Column(cfg, n - 1) + [NodeY(cfg, n - 1)]
  }

  lemma {:induction false} ColumnAt(cfg: Config, n: nat)
    ensures forall k :: 0 <= k < n ==> Column(cfg, n)[k] == NodeY(cfg, k)
  {
    if n > 0 {
      ColumnAt(cfg, n - 1);
    }
  }

  /** No position of `s` after `k` and before `end` holds the same object as position `k`. */
  ghost predicate LastBefore(s: seq<Node>, k: nat, end: nat)
    requires k < end <= |s|
  {
    forall j :: k < j < end ==> s[j] != s[k]
  }

  /**
   * One pass of `set_node_location`'s loop: `set_cy`, `set_cx`, `set_cr`, then
   * the colour lookup, and `set_fill` only when the lookup succeeds.
   */
  method PlaceNode(node: Node, x: int, y: int, radius: int, colorIndex: int) returns (fill: Result<string>)
    modifies node`cx, node`cy, node`cr, node`fill
    ensures fill.Ok? <==> 0 <= colorIndex < Color.Size
    ensures fill.Err? ==> fill.error == EnumValueError(colorIndex)
    ensures fill.Ok? ==> fill.value == Color.Palette[colorIndex].nodeColor
    ensures node.cx == x && node.cy == y && node.cr == radius
    ensures fill.Ok? ==> node.fill == fill.value
    ensures fill.Err? ==> node.fill == old(node.fill)
  {
    node.SetCy(y);
    node.SetCx(x);
    node.SetCr(radius);
    fill := Color.NodeColor(colorIndex);
    Color.NodeColorTable(colorIndex);
    if fill.Ok? {
      node.SetFill(fill.value);
    }
  }

  /**
   * `set_node_location`: moves every node of the list, in order, to x `nodeX`
   * and to the next y of the column, gives it radius `nodeR` and the palette's
   * node colour for `colorIndex`, and returns the same list. The colour lookup
   * runs inside the loop after the first node has its position, so an invalid
   * index raises only for a non-empty list, leaving that node moved but not
   * coloured. A node listed twice ends at the y of its last position.
   */
  method SetNodeLocation(cfg: Config, nodes: seq<Node>, colorIndex: int, nodeX: int, nodeR: int := 10)
    returns (r: Result<seq<Node>>)
    modifies nodes`cx, nodes`cy, nodes`cr, nodes`fill
    ensures r.Err? <==> nodes != [] && !(0 <= colorIndex < Color.Size)
    ensures r.Err? ==> r.error == EnumValueError(colorIndex)
    ensures r.Err? ==> nodes[0].cy == NodeY(cfg, 0) && nodes[0].cx == nodeX && nodes[0].cr == nodeR
                       && nodes[0].fill == old(nodes[0].fill)
    ensures r.Err? ==> forall n :: n in nodes && n != nodes[0] ==>
                         n.cx == old(n.cx) && n.cy == old(n.cy) && n.cr == old(n.cr) && n.fill == old(n.fill)
    ensures r.Ok? ==> r.value == nodes
    ensures r.Ok? ==> forall k :: 0 <= k < |nodes| ==>
                        nodes[k].cx == nodeX && nodes[k].cr == nodeR && nodes[k].fill == Color.Palette[colorIndex].nodeColor
    ensures r.Ok? ==> forall k :: 0 <= k < |nodes| && LastBefore(nodes, k, |nodes|) ==> nodes[k].cy == NodeY(cfg, k)
  {
    var startY := cfg.headerHeight + cfg.topMargin;
    var positioned: seq<Node> := [];
    ghost var ys: seq<int> := [];
    for index := 0 to |nodes|
      invariant positioned == nodes[..index]
      invariant startY == NodeY(cfg, index) && ys == Column(cfg, index)
      invariant index > 0 ==> 0 <= colorIndex < Color.Size
      invariant forall k :: 0 <= k < index ==> nodes[k].cx == nodeX && nodes[k].cr == nodeR && nodes[k].fill == Color.Palette[colorIndex].nodeColor
      invariant forall k :: 0 <= k < index && LastBefore(nodes, k, index) ==> nodes[k].cy == ys[k]
      invariant index == 0 ==> unchanged(nodes)
    {
      var node := nodes[index];
      var fill := PlaceNode(node, nodeX, startY, nodeR, colorIndex);
      if fill.Err? {
        return Err(fill.error);
      }
      forall k | 0 <= k < index && LastBefore(nodes, k, index + 1) ensures nodes[k].cy == ys[k] {
        assert nodes[index] != nodes[k];
        assert LastBefore(nodes, k, index);
      }
      positioned := positioned + [node];
      ys := ys + [startY];
      startY := startY + cfg.betweenNodeVerticalLength;
    }
    assert nodes[..|nodes|] == nodes;
    ColumnAt(cfg, |nodes|);
    return Ok(positioned);
  }

  // ---- `calculate_body_height` ----

  /** The size of the largest phase; 0 when there are no phases. */
  function MaxPhaseSize(ps: seq<seq<Node>>): (m: nat)
    ensures forall i :: 0 <= i < |ps| ==> |ps[i]| <= m
    ensures ps == [] ==> m == 0
    ensures ps != [] ==> exists i :: 0 <= i < |ps| && |ps[i]| == m
  {
    if ps == [] then 0
    else
      var init := ps[..|ps| - 1];
      var m := MaxPhaseSize(init);
      assert forall i :: 0 <= i < |init| ==> ps[i] == init[i];
      if |ps[|ps| - 1]| > m then |ps[|ps| - 1]| else m
  }

  /**
   * The height of the body columns: the margins plus 100 per node after the
   * first of the largest phase (the step is the literal 100, not the
   * configured vertical distance).
   */
  function BodyHeight(cfg: Config, ps: seq<seq<Node>>): int {
    cfg.topMargin + (MaxPhaseSize(ps) - 1) * 100 + cfg.bottomMargin
  }

  /** `calculate_body_height`: the largest phase size, found by a scan over the phases, turned into `BodyHeight`. */
  method CalculateBodyHeight(cfg: Config, ps: seq<seq<Node>>) returns (height: int)
    ensures height == BodyHeight(cfg, ps)
  {
    var maxNodeNum := 0;
    for i := 0 to |ps|
      invariant maxNodeNum == MaxPhaseSize(ps[..i])
    {
      assert ps[..i + 1][..i] == ps[..i];
      var nodeNum := |ps[i]|;
      if nodeNum > maxNodeNum {
        maxNodeNum := nodeNum;
      }
    }
    assert ps[..|ps|] == ps;
    return cfg.topMargin + (maxNodeNum - 1) * 100 + cfg.bottomMargin;
  }

  // ---- `generate_dummy_nodes` ----

  /** `generate_dummy_nodes`: `nodeNum` placeholder nodes (none for a count below 1), id -1, no name, stroke width 0. */
  method GenerateDummyNodes(nodeNum: int, parentIds: seq<int>) returns (nodes: seq<Node>)
    ensures |nodes| == if nodeNum > 0 then nodeNum else 0
    ensures forall k :: 0 <= k < |nodes| ==> fresh(nodes[k])
    ensures Sequences.Distinct(nodes)
    ensures forall k :: 0 <= k < |nodes| ==>
              && nodes[k].id == -1 && nodes[k].parentIds == SortInts(parentIds)
              && nodes[k].startTime == 0 && nodes[k].nodeName == "" && nodes[k].status == ""
              && nodes[k].stroke == "black" && nodes[k].strokeWidth == 0
              && nodes[k].cx == 0 && nodes[k].cy == 0 && nodes[k].cr == 0 && nodes[k].fill == "" && nodes[k].href == ""
  {
    nodes := [];
    var i := 0;
    while i < nodeNum
      invariant 0 <= i <= (if nodeNum > 0 then nodeNum else 0) && |nodes| == i
      invariant forall k :: 0 <= k < |nodes| ==> fresh(nodes[k])
      invariant Sequences.Distinct(nodes)
      invariant forall k :: 0 <= k < |nodes| ==>
                  && nodes[k].id == -1 && nodes[k].parentIds == SortInts(parentIds)
                  && nodes[k].startTime == 0 && nodes[k].nodeName == "" && nodes[k].status == ""
                  && nodes[k].stroke == "black" && nodes[k].strokeWidth == 0
                  && nodes[k].cx == 0 && nodes[k].cy == 0 && nodes[k].cr == 0 && nodes[k].fill == "" && nodes[k].href == ""
    {
      var node := new Node(-1, parentIds, 0, "", "", strokeWidth := 0);
      nodes := nodes + [node];
      i := i + 1;
    }
  }

  // ---- the layout arithmetic of `draw` ----

  /** `math.floor(whole_max_width / phase_num)`: the width of a column, and the distance between neighbouring columns' nodes. */
  function PhaseWidth(cfg: Config, n: nat): int
    requires n > 0
  {
    cfg.wholeMaxWidth / n
  }

  /** `math.floor(whole_max_width / phase_num / 2)`: the x of the first column's nodes. */
  function FirstX(cfg: Config, n: nat): int
    requires n > 0
  {
    cfg.wholeMaxWidth / (2 * n)
  }

  /** The x of the nodes of column `i`: the first column's x, then one column width further for each next column. */
  function NodeX(cfg: Config, n: nat, i: nat): int
    requires n > 0
  {
    if i == 0 then FirstX(cfg, n) else NodeX(cfg, n, i - 1) + PhaseWidth(cfg, n)
  }

  /** The closed form: the first column's x plus `i` column widths. */
  lemma {:induction false} NodeXClosedForm(cfg: Config, n: nat, i: nat)
    requires n > 0
    ensures NodeX(cfg, n, i) == FirstX(cfg, n) + i * PhaseWidth(cfg, n)
  {
    if i > 0 {
      NodeXClosedForm(cfg, n, i - 1);
    }
  }

  lemma {:induction false} MulAtLeast(d: int, m: int)
    requires d >= 1 && m > 0
    ensures d * m >= m
  {
    if d > 1 {
      MulAtLeast(d - 1, m);
      assert d * m == (d - 1) * m + m;
    }
  }

  /** Floor division is determined by quotient and remainder. */
  lemma DivIs(w: int, m: int, q: int, s: int)
    requires m > 0 && w == q * m + s && 0 <= s < m
    ensures w / m == q
  {
    var d := w / m - q;
    assert w == (w / m) * m + w % m;
    assert d * m == s - w % m;
    if d >= 1 {
      MulAtLeast(d, m);
    } else if d <= -1 {
      MulAtLeast(-d, m);
    }
  }

  /** The first x is half a column width, rounded down: the nodes sit in the middle of their column. */
  lemma {:induction false} FirstXIsHalfColumn(cfg: Config, n: nat)
    requires n > 0
    ensures FirstX(cfg, n) == PhaseWidth(cfg, n) / 2
  {
    var w, q, s := cfg.wholeMaxWidth, cfg.wholeMaxWidth / n, cfg.wholeMaxWidth % n;
    var a, b := q / 2, q % 2;
    assert w == (2 * a + b) * n + s;
    assert w == a * (2 * n) + (b * n + s);
    DivIs(w, 2 * n, a, b * n + s);
  }

  /** Column `i`'s nodes lie inside column `i`, as soon as a column is at least one unit wide. */
  lemma {:induction false} NodeInColumn(cfg: Config, n: nat, i: nat)
    requires n > 0 && PhaseWidth(cfg, n) > 0
    ensures i * PhaseWidth(cfg, n) <= NodeX(cfg, n, i) < (i + 1) * PhaseWidth(cfg, n)
  {
    FirstXIsHalfColumn(cfg, n);
    NodeXClosedForm(cfg, n, i);
    var pw := PhaseWidth(cfg, n);
    assert (i + 1) * pw == i * pw + pw;
  }

  /** The image width `phase_width * phase_num`: the maximum width rounded down to a multiple of the phase count. */
  lemma ImageWidth(cfg: Config, n: nat)
    requires n > 0
    ensures PhaseWidth(cfg, n) * n <= cfg.wholeMaxWidth < PhaseWidth(cfg, n) * n + n
  {
    var w := cfg.wholeMaxWidth;
    assert w == (w / n) * n + w % n && 0 <= w % n < n;
  }

  // ---- `draw` ----

  /** No node belongs to two phases. */
  ghost predicate Disjoint(phases: seq<seq<Node>>) {
    forall i, j, a, b :: 0 <= i < j < |phases| && 0 <= a < |phases[i]| && 0 <= b < |phases[j]| ==> phases[i][a] != phases[j][b]
  }

  /** No node sits at two positions: none belongs to two phases, and none is listed twice within its phase. */
  ghost predicate Separate(phases: seq<seq<Node>>) {
    Disjoint(phases) && forall i :: 0 <= i < |phases| ==> Sequences.Distinct(phases[i])
  }

  /** The loop of `draw` that builds the nodes of every phase with `get_nodes`. */
  method BuildPhases(ps: seq<PhaseData>) returns (built: seq<seq<Node>>)
    ensures |built| == |ps|
    ensures forall i :: 0 <= i < |ps| ==> |built[i]| == |ps[i].nodes|
    ensures forall i, k :: 0 <= i < |ps| && 0 <= k < |built[i]| ==>
              fresh(built[i][k]) && BuiltFrom(built[i][k], ps[i].nodes[k])
    ensures Separate(built)
  {
    built := [];
    for i := 0 to |ps|
      invariant |built| == i
      invariant forall j :: 0 <= j < i ==> |built[j]| == |ps[j].nodes|
      invariant forall j, k :: 0 <= j < i && 0 <= k < |built[j]| ==>
                  fresh(built[j][k]) && BuiltFrom(built[j][k], ps[j].nodes[k])
      invariant Separate(built)
    {
      var nodes := GetNodes(ps[i]);
      built := built + [nodes];
    }
  }

  /** Node `k` of phase `i` sits in column `i` at the palette colour of phase `i`, and at row `k` if it is the last occurrence in its phase. */
  ghost predicate PlacedAt(cfg: Config, phases: seq<seq<Node>>, i: nat, k: nat)
    requires 0 < |phases| && i < |phases| && k < |phases[i]|
    reads phases[i][k]
  {
    && phases[i][k].cx == NodeX(cfg, |phases|, i) && phases[i][k].cr == 10
    && i < Color.Size && phases[i][k].fill == Color.Palette[i].nodeColor
    && (LastBefore(phases[i], k, |phases[i]|) ==> phases[i][k].cy == NodeY(cfg, k))
  }

  /** One pass of the placing loop: `set_node_location` on phase `index` at colour `index` and x `NodeX(index)`. */
  method PlaceColumn(cfg: Config, phases: seq<seq<Node>>, index: nat, x: int) returns (r: Result<seq<Node>>)
    requires index < |phases| && x == NodeX(cfg, |phases|, index)
    modifies phases[index]`cx, phases[index]`cy, phases[index]`cr, phases[index]`fill
    ensures r.Err? <==> phases[index] != [] && Color.Size <= index
    ensures r.Err? ==> r.error == EnumValueError(index)
    ensures r.Ok? ==> r.value == phases[index]
    ensures r.Ok? ==> forall k :: 0 <= k < |phases[index]| ==> PlacedAt(cfg, phases, index, k)
  {
    r := SetNodeLocation(cfg, phases[index], index, x);
  }

  /** Some phase past the last palette entry holds a node, so placing it raises. */
  ghost predicate Uncoloured(phases: seq<seq<Node>>) {
    exists i :: Color.Size <= i < |phases| && phases[i] != []
  }

  /** `e` is the error placing raises: the colour lookup for the first non-empty phase past the last palette entry. */
  ghost predicate PlacementError(phases: seq<seq<Node>>, e: Error) {
    exists i :: Color.Size <= i < |phases| && phases[i] != [] && e == EnumValueError(i)
                && forall j :: Color.Size <= j < i ==> phases[j] == []
  }

  /**
   * The loop of `draw` that places phase `index` with `set_node_location` at
   * colour `index`, each phase one column width to the right of the one before.
   * It raises at the first non-empty phase past the last palette entry.
   */
  method PlacePhases(cfg: Config, phases: seq<seq<Node>>) returns (r: Result<seq<seq<Node>>>)
    requires phases != [] && Disjoint(phases)
    modifies NodesOf(phases)`cx, NodesOf(phases)`cy, NodesOf(phases)`cr, NodesOf(phases)`fill
    ensures r.Err? <==> Uncoloured(phases)
    ensures r.Err? ==> PlacementError(phases, r.error)
    ensures r.Ok? ==> r.value == phases
    ensures r.Ok? ==> forall i, k :: 0 <= i < |phases| && 0 <= k < |phases[i]| ==> PlacedAt(cfg, phases, i, k)
  {
    var betweenNodeHorizontalLength := PhaseWidth(cfg, |phases|);
    var startX := FirstX(cfg, |phases|);
    var positioned: seq<seq<Node>> := [];
    for index := 0 to |phases|
      invariant positioned == phases[..index]
      invariant startX == NodeX(cfg, |phases|, index)
      invariant forall j :: Color.Size <= j < index ==> phases[j] == []
      invariant forall j, k :: 0 <= j < index && 0 <= k < |phases[j]| ==> PlacedAt(cfg, phases, j, k)
    {
      NodesOfPhase(phases, index);
      var placed := PlaceColumn(cfg, phases, index, startX);
      if placed.Err? {
        return Err(placed.error);
      }
      positioned := positioned + [placed.value];
      startX := startX + betweenNodeHorizontalLength;
    }
    assert phases[..|phases|] == phases;
    return Ok(positioned);
  }

  /** The markup loop of `draw`: each node's circle and label, phase after phase, in list order. */
  method Markup(phases: seq<seq<Node>>) returns (markers: seq<NodeMark>, labels: seq<LabelMark>)
    ensures |markers| == |labels| == |Sequences.Flatten(phases)|
    ensures forall j :: 0 <= j < |markers| ==>
              markers[j] == Sequences.Flatten(phases)[j].Marker() && labels[j] == Sequences.Flatten(phases)[j].Label()
  {
    markers, labels := [], [];
    for p := 0 to |phases|
      invariant |markers| == |labels| == |Sequences.Flatten(phases[..p])|
      invariant forall j :: 0 <= j < |markers| ==>
                  markers[j] == Sequences.Flatten(phases[..p])[j].Marker() && labels[j] == Sequences.Flatten(phases[..p])[j].Label()
    {
      Sequences.FlattenStep(phases, p);
      ghost var done := Sequences.Flatten(phases[..p]);
      for k := 0 to |phases[p]|
        invariant |markers| == |labels| == |done| + k
        invariant forall j :: 0 <= j < |markers| ==>
                    markers[j] == (done + phases[p])[j].Marker() && labels[j] == (done + phases[p])[j].Label()
      {
        var node := phases[p][k];
        markers := markers + [node.Marker()];
        labels := labels + [node.Label()];
      }
    }
    assert phases[..|phases|] == phases;
  }

  /** What `draw` packs into the image: its size, the frame, the lines, each node's circle and label in markup order, and the placed phases. */
  datatype Drawing = Drawing(width: int, height: int, frame: seq<FrameModel.Rectangle>, lines: seq<LineModel.Line>,
                             markers: seq<NodeMark>, labels: seq<LabelMark>, phases: seq<seq<Node>>)

  /** The `phase_name` of every phase, in order. */
  function PhaseNames(ps: seq<PhaseData>): (names: seq<string>)
    ensures |names| == |ps| && forall i :: 0 <= i < |ps| ==> names[i] == ps[i].phaseName
  {
    seq(|ps|, i requires 0 <= i < |ps| => ps[i].phaseName)
  }

  /** Every node of every phase after the first lists at least one parent. */
  ghost predicate LaterPhasesHaveParents(ps: seq<PhaseData>) {
    forall i, k :: 1 <= i < |ps| && 0 <= k < |ps[i].nodes| ==> ps[i].nodes[k].parentIds != []
  }

  /** `rs` is the frame `f` generates: every header, then every body. */
  ghost predicate FrameOf(rs: seq<FrameModel.Rectangle>, f: FrameModel.Frame)
    requires |f.phaseNames| <= Color.Size
  {
    && |rs| == 2 * |f.phaseNames|
    && (forall i :: 0 <= i < |f.phaseNames| ==> rs[i] == f.Header(i))
    && (forall i :: 0 <= i < |f.phaseNames| ==> rs[|f.phaseNames| + i] == f.Body(i))
  }

  /** Ordering keeps every node in its phase, so phases built apart stay apart. */
  lemma DisjointWithin(r: seq<seq<Node>>, ps: seq<seq<Node>>)
    requires Ordering.PhasesWithin(r, ps) && Disjoint(ps)
    ensures Disjoint(r)
  {
    forall i, j, a, b | 0 <= i < j < |r| && 0 <= a < |r[i]| && 0 <= b < |r[j]| ensures r[i][a] != r[j][b] {
      assert r[i][a] in r[i] && r[j][b] in r[j];
      var a' :| 0 <= a' < |ps[i]| && ps[i][a'] == r[i][a];
      var b' :| 0 <= b' < |ps[j]| && ps[j][b'] == r[j][b];
    }
  }

  /** Nodes built from phases whose later nodes all list parents can be ordered. */
  lemma BuiltPhasesOrder(sorted: seq<PhaseData>, built: seq<seq<Node>>)
    requires |built| == |sorted| && LaterPhasesHaveParents(sorted)
    requires forall i :: 0 <= i < |sorted| ==> |built[i]| == |sorted[i].nodes|
    requires forall i, k :: 0 <= i < |sorted| && 0 <= k < |built[i]| ==> BuiltFrom(built[i][k], sorted[i].nodes[k])
    ensures Ordering.OrderPhases(built).Ok?
  {
    forall i | 1 <= i < |built| ensures Ordering.AllHaveParents(built[i]) {
      forall k | 0 <= k < |built[i]| ensures built[i][k].parentIds != [] {
        assert BuiltFrom(built[i][k], sorted[i].nodes[k]);
        assert |SortInts(sorted[i].nodes[k].parentIds)| == |sorted[i].nodes[k].parentIds|;
      }
    }
    Ordering.OrderPhasesOk(built);
  }

  /**
   * The first half of `draw`'s node handling: `get_nodes` for every phase
   * (the nodes `built`), then `sort_nodes_each_phase` on them, which raises
   * only when a later node has no parent.
   */
  method PrepareNodes(sorted: seq<PhaseData>) returns (r: Result<seq<seq<Node>>>, ghost built: seq<seq<Node>>)
    ensures |built| == |sorted| && forall i :: 0 <= i < |sorted| ==> |built[i]| == |sorted[i].nodes|
    ensures forall i, k :: 0 <= i < |sorted| && 0 <= k < |built[i]| ==> fresh(built[i][k]) && BuiltFrom(built[i][k], sorted[i].nodes[k])
    ensures RecordsOf(built, sorted) && Separate(built)
    ensures r == Ordering.OrderPhases(built)
    ensures r.Err? ==> r.error == IndexError
    ensures LaterPhasesHaveParents(sorted) ==> r.Ok?
    ensures r.Ok? ==> |r.value| == |sorted| && Disjoint(r.value)
    ensures r.Ok? ==> forall o :: o in NodesOf(r.value) ==> fresh(o)
  {
    var nodes := BuildPhases(sorted);
    built := nodes;
    r := Ordering.SortNodesEachPhase(nodes);
    if LaterPhasesHaveParents(sorted) {
      BuiltPhasesOrder(sorted, built);
    }
    if r.Ok? {
      DisjointWithin(r.value, built);
      forall o | o in NodesOf(r.value) ensures fresh(o) {
        var i, k :| 0 <= i < |r.value| && 0 <= k < |r.value[i]| && r.value[i][k] == o;
        assert o in r.value[i];
        var k' :| 0 <= k' < |built[i]| && built[i][k'] == o;
      }
    }
  }

  /** A fresh list holding the phases, as `draw` hands them to `generate_svg_lines`. */
  method NewPhaseList(phases: seq<seq<Node>>) returns (arr: array<seq<Node>>)
    ensures fresh(arr) && arr[..] == phases
  {
    arr := new seq<Node>[|phases|](i requires 0 <= i < |phases| => phases[i]);
  }

  /**
   * `generate_svg_lines` on a fresh list of the placed phases: the lines of
   * every edge, and the list as the call leaves it, reversed.
   */
  method DrawLines(phases: seq<seq<Node>>) returns (lines: seq<LineModel.Line>, reversed: seq<seq<Node>>)
    ensures var v := LineModel.Views(phases); lines == LineModel.LinesOf(v, LineModel.Edges(v))
    ensures reversed == LineModel.Reversed(phases)
  {
    ghost var v := LineModel.Views(phases);
    label L:
    var arr := NewPhaseList(phases);
    lines := LineModel.GenerateSvgLines(arr);
    reversed := arr[..];
    assert unchanged@L(NodesOf(phases));
    assert LineModel.Views(phases) == v;
  }

  /**
   * The second half of `draw`: the lines of every edge, then the circle and
   * label of every node of the list the lines left reversed.
   */
  method Render(phases: seq<seq<Node>>) returns (lines: seq<LineModel.Line>, markers: seq<NodeMark>, labels: seq<LabelMark>)
    ensures var v := LineModel.Views(phases); lines == LineModel.LinesOf(v, LineModel.Edges(v))
    ensures var marked := Sequences.Flatten(LineModel.Reversed(phases));
            && |markers| == |labels| == |marked|
            && forall j :: 0 <= j < |marked| ==> markers[j] == marked[j].Marker() && labels[j] == marked[j].Label()
  {
    var reversed;
    lines, reversed := DrawLines(phases);
    ghost var v := LineModel.Views(phases);
    label L:
    markers, labels := Markup(reversed);
    assert unchanged@L(NodesOf(phases));
    assert LineModel.Views(phases) == v;
  }

  /** The body height, then the frame of headers and bodies that `draw` builds around the placed nodes. */
  method FrameStage(cfg: Config, names: seq<string>, phaseWidth: int, positioned: seq<seq<Node>>)
    returns (bodyHeight: int, r: Result<seq<FrameModel.Rectangle>>)
    ensures bodyHeight == BodyHeight(cfg, positioned)
    ensures r.Err? <==> |names| > Color.Size
    ensures r.Err? ==> r.error == EnumValueError(Color.Size)
    ensures r.Ok? ==> FrameOf(r.value, FrameModel.Frame(names, phaseWidth, cfg.headerHeight, BodyHeight(cfg, positioned)))
  {
    bodyHeight := CalculateBodyHeight(cfg, positioned);
    r := FrameModel.Frame(names, phaseWidth, cfg.headerHeight, bodyHeight).GenerateFrame();
  }

  /** Every node of every phase is placed as `PlacedAt` says. */
  ghost predicate AllPlaced(cfg: Config, phases: seq<seq<Node>>)
    reads NodesOf(phases)
  {
    forall i, k :: 0 <= i < |phases| && 0 <= k < |phases[i]| ==>
      assert phases[i][k] in NodesOf(phases);
      PlacedAt(cfg, phases, i, k)
  }

  /** The placed nodes of a phase that lists no node twice sit one row apart, node `k` at row `k`. */
  lemma DistinctRows(cfg: Config, phases: seq<seq<Node>>, i: nat)
    requires AllPlaced(cfg, phases) && i < |phases| && Sequences.Distinct(phases[i])
    ensures forall k :: 0 <= k < |phases[i]| ==> phases[i][k].cy == NodeY(cfg, k)
  {
    forall k | 0 <= k < |phases[i]| ensures phases[i][k].cy == NodeY(cfg, k) {
      assert phases[i][k] in NodesOf(phases);
      assert PlacedAt(cfg, phases, i, k);
      assert LastBefore(phases[i], k, |phases[i]|);
    }
  }

  /** Ordering separate phases leaves the first one without repeats, since it is only sorted. */
  lemma FirstOrderedDistinct(built: seq<seq<Node>>)
    requires built != [] && Separate(built) && Ordering.OrderPhases(built).Ok?
    ensures Sequences.Distinct(Ordering.OrderPhases(built).value[0])
  {
    Ordering.OrderPhasesShape(built, 0);
    Ordering.SortByIdCorrect(built[0], 0);
    Sequences.DistinctPermutation(built[0], Ordering.OrderPhases(built).value[0]);
  }

  /** A later ordered phase has no repeats when no two nodes of the ordered phase before it share an id. */
  lemma LaterOrderedDistinct(built: seq<seq<Node>>, i: nat)
    requires Separate(built) && Ordering.OrderPhases(built).Ok? && 0 < i < |built|
    requires Ordering.UniqueIds(Ordering.OrderPhases(built).value[i - 1])
    ensures Sequences.Distinct(Ordering.OrderPhases(built).value[i])
  {
    var r := Ordering.OrderPhases(built).value;
    Ordering.OrderPhasesShape(built, i);
    if r[i - 1] != [] {
      Ordering.GroupedIsSelection(r[i - 1], built[i], r[i - 1][0]);
    }
  }

  /**
   * In a drawing of separately built nodes, the first phase's nodes sit one
   * row apart, and so do a later phase's whenever the phase before it has no
   * repeated id: no two records share a circle.
   */
  lemma DrawnRows(cfg: Config, built: seq<seq<Node>>, phases: seq<seq<Node>>)
    requires built != [] && Separate(built) && Ordering.OrderPhases(built) == Ok(phases) && AllPlaced(cfg, phases)
    ensures forall k :: 0 <= k < |phases[0]| ==> phases[0][k].cy == NodeY(cfg, k)
    ensures forall i, k :: 0 < i < |phases| && Ordering.UniqueIds(phases[i - 1]) && 0 <= k < |phases[i]| ==>
              phases[i][k].cy == NodeY(cfg, k)
  {
    FirstOrderedDistinct(built);
    DistinctRows(cfg, phases, 0);
    forall i, k | 0 < i < |phases| && Ordering.UniqueIds(phases[i - 1]) && 0 <= k < |phases[i]|
      ensures phases[i][k].cy == NodeY(cfg, k)
    {
      LaterOrderedDistinct(built, i);
      DistinctRows(cfg, phases, i);
    }
  }

  /**
   * The node half of `draw`: build the nodes of every phase (`built`), order
   * and place them. Ordering raises when a later node has no parent; placing
   * raises when a non-empty phase has no palette entry. Placing changes only
   * positions and fills, so the ordering of `built` still describes the
   * result.
   */
  method PlaceAll(cfg: Config, sorted: seq<PhaseData>) returns (r: Result<seq<seq<Node>>>, ghost built: seq<seq<Node>>)
    requires sorted != []
    ensures RecordsOf(built, sorted) && Separate(built)
    ensures forall i, k :: 0 <= i < |built| && 0 <= k < |built[i]| ==> fresh(built[i][k])
    ensures Ordering.OrderPhases(built).Err? ==> r == Err(IndexError)
    ensures Ordering.OrderPhases(built).Ok? ==>
              (r.Err? <==> Uncoloured(Ordering.OrderPhases(built).value))
              && (r.Err? ==> PlacementError(Ordering.OrderPhases(built).value, r.error))
    ensures r.Ok? ==> Ordering.OrderPhases(built) == Ok(r.value) && AllPlaced(cfg, r.value)
    ensures |sorted| <= Color.Size && LaterPhasesHaveParents(sorted) ==> r.Ok?
  {
    var prepared;
    prepared, built := PrepareNodes(sorted);
    if prepared.Err? {
      r := Err(prepared.error);
      return;
    }
    ghost var ordering := Ordering.OrderPhases(built);
    label Ordered:
    r := PlacePhases(cfg, prepared.value);
    assert unchanged@Ordered(NodesOf(built)`id, NodesOf(built)`parentIds, NodesOf(built)`href);
    assert Ordering.OrderPhases(built) == ordering;
    assert RecordsOf(built, sorted);
  }

  /**
   * `d` is the image `draw` assembles around the placed `phases`: its width is
   * one phase width per phase, its height the header plus the body height, its
   * frame the headers and bodies for `names`, its lines those of every edge,
   * and its markup each node's circle and label, latest phase first.
   */
  ghost predicate DrawingOf(cfg: Config, names: seq<string>, phaseWidth: int, phases: seq<seq<Node>>, d: Drawing)
    reads NodesOf(phases), Sequences.Flatten(LineModel.Reversed(phases))
  {
    && d.phases == phases && d.width == phaseWidth * |phases|
    && d.height == cfg.headerHeight + BodyHeight(cfg, phases)
    && |names| <= Color.Size
    && FrameOf(d.frame, FrameModel.Frame(names, phaseWidth, cfg.headerHeight, BodyHeight(cfg, phases)))
    && (var v := LineModel.Views(phases); d.lines == LineModel.LinesOf(v, LineModel.Edges(v)))
    && (var marked := Sequences.Flatten(LineModel.Reversed(phases));
        && |d.markers| == |d.labels| == |marked|
        && forall j :: 0 <= j < |marked| ==> d.markers[j] == marked[j].Marker() && d.labels[j] == marked[j].Label())
  }

  /**
   * The tail of `draw` once the nodes are placed: the body height, the frame
   * of headers and bodies (which raises past the last palette entry), the
   * lines and the node markup.
   */
  method Assemble(cfg: Config, names: seq<string>, phaseWidth: int, positioned: seq<seq<Node>>) returns (r: Result<Drawing>)
    ensures r.Err? <==> |names| > Color.Size
    ensures r.Err? ==> r.error == EnumValueError(Color.Size)
    ensures r.Ok? ==> DrawingOf(cfg, names, phaseWidth, positioned, r.value)
  {
    var bodyHeight, framed := FrameStage(cfg, names, phaseWidth, positioned);
    var frameSvg :- framed;
    var lines, markers, labels := Render(positioned);
    return Ok(Drawing(phaseWidth * |positioned|, bodyHeight + cfg.headerHeight, frameSvg, lines, markers, labels, positioned));
  }

  /**
   * `draw` past its phase count: builds the nodes of the sorted phases
   * (`built`, one per raw node), orders and places them, and assembles the
   * image with one phase width per phase. The first error wins: a later node
   * without parents raises in the ordering, then a non-empty phase past the
   * last palette entry raises in the placing, then more phases than palette
   * entries raises in the frame.
   */
  method DrawSorted(cfg: Config, sorted: seq<PhaseData>) returns (r: Result<Drawing>, ghost built: seq<seq<Node>>)
    requires sorted != []
    ensures RecordsOf(built, sorted) && Separate(built)
    ensures forall i, k :: 0 <= i < |built| && 0 <= k < |built[i]| ==> fresh(built[i][k])
    ensures Ordering.OrderPhases(built).Err? ==> r == Err(IndexError)
    ensures Ordering.OrderPhases(built).Ok? ==>
              var ordered := Ordering.OrderPhases(built).value;
              && (Uncoloured(ordered) ==> r.Err? && PlacementError(ordered, r.error))
              && (!Uncoloured(ordered) && |sorted| > Color.Size ==> r == Err(EnumValueError(Color.Size)))
              && (!Uncoloured(ordered) && |sorted| <= Color.Size ==> r.Ok?)
    ensures |sorted| <= Color.Size && LaterPhasesHaveParents(sorted) ==> r.Ok?
    ensures r.Ok? ==> Ordering.OrderPhases(built) == Ok(r.value.phases)
    ensures r.Ok? ==> |sorted| <= Color.Size && |r.value.phases| == |sorted|
    ensures r.Ok? ==> AllPlaced(cfg, r.value.phases)
    ensures r.Ok? ==> DrawingOf(cfg, PhaseNames(sorted), PhaseWidth(cfg, |sorted|), r.value.phases, r.value)
  {
    var phaseWidth := cfg.wholeMaxWidth / |sorted|;
    var positioned;
    positioned, built := PlaceAll(cfg, sorted);
    if positioned.Err? {
      return Err(positioned.error), built;
    }
    label L:
    r := Assemble(cfg, PhaseNames(sorted), phaseWidth, positioned.value);
    assert unchanged@L(NodesOf(positioned.value));
    assert unchanged@L(NodesOf(built));
  }

  /**
   * `draw`: orders the phases by sequence number and draws them. No phases at
   * all is a division by zero; otherwise the errors and the image are those
   * of `DrawSorted`.
   */
  method Draw(cfg: Config, phaseData: seq<PhaseData>) returns (r: Result<Drawing>, ghost built: seq<seq<Node>>)
    ensures RecordsOf(built, SortPhaseDataBySeqNumber(phaseData)) && Separate(built)
    ensures forall i, k :: 0 <= i < |built| && 0 <= k < |built[i]| ==> fresh(built[i][k])
    ensures phaseData == [] ==> r == Err(ZeroDivisionError)
    ensures phaseData != [] && Ordering.OrderPhases(built).Err? ==> r == Err(IndexError)
    ensures phaseData != [] && Ordering.OrderPhases(built).Ok? ==>
              var ordered := Ordering.OrderPhases(built).value;
              && (Uncoloured(ordered) ==> r.Err? && PlacementError(ordered, r.error))
              && (!Uncoloured(ordered) && |phaseData| > Color.Size ==> r == Err(EnumValueError(Color.Size)))
              && (!Uncoloured(ordered) && |phaseData| <= Color.Size ==> r.Ok?)
    ensures 0 < |phaseData| <= Color.Size && LaterPhasesHaveParents(SortPhaseDataBySeqNumber(phaseData)) ==> r.Ok?
    ensures r.Ok? ==> Ordering.OrderPhases(built) == Ok(r.value.phases)
    ensures r.Ok? ==> 0 < |phaseData| <= Color.Size && |r.value.phases| == |phaseData|
    ensures r.Ok? ==> AllPlaced(cfg, r.value.phases)
    ensures r.Ok? ==> DrawingOf(cfg, PhaseNames(SortPhaseDataBySeqNumber(phaseData)), PhaseWidth(cfg, |phaseData|), r.value.phases, r.value)
  {
    var sorted := SortPhaseDataBySeqNumber(phaseData);
    if |sorted| == 0 {
      built := [];
      return Err(ZeroDivisionError), built;
    }
    r, built := DrawSorted(cfg, sorted);
  }
}
