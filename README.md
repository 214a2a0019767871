# dg-drawer research-flow layout, modelled in Dafny

This project models the layout core of the research-flow history renderer in dg-drawer. It covers these parts:

- **Phase order.** The renderer orders the phases by their sequence number.
- **Nodes.** It builds the nodes of each phase from the raw records. The first phase is sorted by id. Every later phase is grouped along the order of the phase before it, through each node's smallest parent id.
- **Placement.** Each phase is a column. Nodes go down the column, one vertical step apart, and take the phase's palette colour.
- **Measurements.** It computes the body height and the image size.
- **Frame.** It builds one coloured header and one white body rectangle per phase.
- **Lines.** It enumerates one line for each (child, parent id, matching node of the preceding phase).
- **Markup.** It emits each node's circle and label.

The modules:

| module | contents |
|---|---|
| `Errors` | The exceptions the core raises, and a `Result` type that carries them. |
| `Color` | The nine-entry palette and its two partial lookups. |
| `NodeModel` | The mutable `Node` class, with its setters, its circle markup and its label. |
| `LineModel` | The `Line` constructor check, the in-place reverse, and the edge enumeration of `generate_svg_lines`. |
| `FrameModel` | The header, body and frame generators. |
| `Sorting` | Python's stable `sorted` by a key, including the `float('inf')` default key. |
| `Ordering` | `sort_nodes_by_id`, `sort_nodes_by_pre_phase_nodes`, `get_child_node_num_by_id` and `sort_nodes_each_phase`. |
| `Sequences` | Shared facts about duplicate-free lists and about concatenating lists of lists. |
| `FlowDrawer` | `get_nodes`, the phase sort, `set_node_location`, `calculate_body_height`, `generate_dummy_nodes` and `draw`. |

How the Python is represented:

- **Nodes** are a class, because the source updates them in place. The other records are datatypes: lines, rectangles, labels, the frame's inputs and the drawer's sizes. The source never changes these after building them.
- **Loops.** Each loop that builds a list or moves nodes is a method with a loop. Each such method is proved against a function or predicate that says what the loop produces:
  - `OrderPhases` and `GroupByPrior` for the orderings;
  - `Edges`/`LinesOf` for the lines;
  - `Header`/`Body` for the frame;
  - `NodeX`/`NodeY` for the coordinates.
- **`generate_svg_lines`** reverses the caller's list in place. It takes an `array` of phases for that reason.
- **SVG strings** are modelled as structured records: `NodeMark`, `LabelMark`, `Line` and `Rectangle`. The string templates themselves are not modelled.
- **`draw`** returns a `Drawing`. It holds the image width and height, the frame rectangles, the lines, each node's circle and label in markup order, and the placed phases.

Where the code and its documentation disagree, the model follows the code:

- The body height uses a step of 100, not the configured vertical distance.
- The node markup in `draw` comes last phase first. This is because `generate_svg_lines` has already reversed the same list (`dg_drawer/research_flow/flow_drawer.py:210-218`).
- `List[Node]()` at `dg_drawer/research_flow/flow_drawer.py:119` is modelled as the empty list it evidently intends.

## Model

| member | source | states |
|---|---|---|
| Color.Find | dg_drawer/research_flow/enums/color.py:30-33 | The scan succeeds exactly when some entry has the index. It returns the first entry with that index. Otherwise the error is `EnumValueError(index)`. |
| Color.PaletteIndices | dg_drawer/research_flow/enums/color.py:7-15 | The palette has nine entries. Entry k has index k, so the indices are the distinct, consecutive values 0..8. |
| Color.FindInPalette | dg_drawer/research_flow/enums/color.py:7-15 | On the palette, the scan returns entry `index` for 0 <= index < 9. It raises `EnumValueError` for every other index, negatives included. |
| Color.PhaseColor | dg_drawer/research_flow/enums/color.py:17-33 | Succeeds exactly when some palette entry has the index, and then returns that entry's header colour. Otherwise it raises `EnumValueError(index)`. |
| Color.NodeColor | dg_drawer/research_flow/enums/color.py:35-51 | Succeeds exactly when some palette entry has the index, and then returns that entry's node colour. Otherwise it raises `EnumValueError(index)`. |
| Color.PhaseColorTable | dg_drawer/research_flow/enums/color.py:17-33 | `get_phase_color_by_index` is defined exactly on 0..8. There it returns the entry's second element (the header colour). Elsewhere it raises `EnumValueError(index)`. |
| Color.NodeColorTable | dg_drawer/research_flow/enums/color.py:35-51 | `get_phase_node_by_index` is defined exactly on 0..8. There it returns the entry's third element (the node colour). Elsewhere it raises `EnumValueError(index)`. |
| Color.SameDomain | dg_drawer/research_flow/enums/color.py:17-51 | The two lookups succeed on exactly the same indices. |
| NodeModel.Node.constructor | dg_drawer/research_flow/component/node.py:7-32 | Every argument is stored as given, except `parentIds`. That one is stored sorted ascending, as a permutation of the argument. |
| NodeModel.DefaultNode | dg_drawer/research_flow/component/node.py:7 | With only the required arguments, the defaults are cx = cy = cr = 0, empty fill and href, and stroke black of width 2. The first stored parent id is the smallest parent id. |
| NodeModel.Node.SetId | dg_drawer/research_flow/component/node.py:61-63 | Sets `id`. The field frame leaves every other field unchanged. |
| NodeModel.Node.SetCx | dg_drawer/research_flow/component/node.py:70-72 | Sets `cx` and nothing else. |
| NodeModel.Node.SetCy | dg_drawer/research_flow/component/node.py:78-80 | Sets `cy` and nothing else. |
| NodeModel.Node.SetCr | dg_drawer/research_flow/component/node.py:86-88 | Sets `cr` and nothing else. |
| NodeModel.Node.SetFill | dg_drawer/research_flow/component/node.py:94-96 | Sets `fill` and nothing else. |
| NodeModel.Node.SetHref | dg_drawer/research_flow/component/node.py:102-104 | Sets `href` and nothing else. |
| NodeModel.Node.SetParentIds | dg_drawer/research_flow/component/node.py:110-112 | Stores the list exactly as given, without re-sorting, and changes nothing else. |
| NodeModel.Node.Marker | dg_drawer/research_flow/component/node.py:35-43 | The circle carries the node's current position, radius, fill and stroke. It is wrapped in a link exactly when `href` is not empty, and the link is the node's href. |
| NodeModel.Node.Label | dg_drawer/research_flow/component/node.py:45-52 | The label shows the node name, centred at x = cx. It sits 5 above the top of the circle (y + 5 = cy − cr), so above the circle whenever the radius is non-negative. |
| LineModel.NewLine | dg_drawer/research_flow/component/line.py:6-16 | Succeeds exactly when the parent's id is among the child's parent ids, and otherwise raises `ArgError(parent id, child id)`. A success joins the parent's centre to the child's centre, with the given stroke (default gray, width 1). |
| LineModel.Reversed | dg_drawer/research_flow/component/line.py:26 | The same length, with element k taken from position n−1−k. |
| LineModel.ReverseInPlace | dg_drawer/research_flow/component/line.py:26 | Python's `list.reverse()`: the array afterwards holds the reverse of its old contents. |
| LineModel.SlotEdgesMember | dg_drawer/research_flow/component/line.py:31-33 | The innermost loop yields an edge exactly for each node of the preceding phase whose id equals that parent id. |
| LineModel.SlotEdgesDistinct | dg_drawer/research_flow/component/line.py:31-33 | The innermost loop yields no edge twice. |
| LineModel.ChildEdgesMember | dg_drawer/research_flow/component/line.py:30-33 | A child's edges are exactly its real edges: any parent id, matched in the preceding phase. |
| LineModel.ChildEdgesDistinct | dg_drawer/research_flow/component/line.py:30-33 | A child's edges contain no repeats. |
| LineModel.PhaseEdgesMember | dg_drawer/research_flow/component/line.py:29-33 | A phase's edges are exactly the real edges whose child is in that phase. |
| LineModel.PhaseEdgesDistinct | dg_drawer/research_flow/component/line.py:29-33 | A phase's edges contain no repeats. |
| LineModel.PhasePartsMember | dg_drawer/research_flow/component/line.py:26-28 | Pass q of the outer loop over the reversed list yields exactly the edges of phase n−1−q. The first phase yields none. |
| LineModel.EdgesExactlyOnce | dg_drawer/research_flow/component/line.py:27-35 | An edge is emitted if and only if it is a real triple: a child in a later phase, one of its parent ids, and a node of the immediately preceding phase with that id. Each triple is emitted once, and unmatched parent ids yield nothing. |
| LineModel.EdgesDescending | dg_drawer/research_flow/component/line.py:26-27 | Edges come latest phase first. |
| LineModel.SinglePhaseHasNoEdges | dg_drawer/research_flow/component/line.py:24-36 | With zero phases or one phase, no line is drawn. |
| LineModel.SlotLines | dg_drawer/research_flow/component/line.py:31-35 | The innermost loop's lines are the lines of its edges. The constructor's check is proved never to fire here: the `.value` of `NewLine` needs its success. |
| LineModel.ChildLines | dg_drawer/research_flow/component/line.py:30-35 | The loop over a child's parent ids yields the lines of that child's edges. |
| LineModel.PhaseLines | dg_drawer/research_flow/component/line.py:29-35 | The loop over a phase's nodes yields the lines of that phase's edges. |
| LineModel.LaterLines | dg_drawer/research_flow/component/line.py:27-35 | The outer loop over the reversed phases yields the lines of all edges. A phase is paired with the one after it in the reversed list, which is the one before it in the original order. |
| LineModel.ViewsOfReversed | dg_drawer/research_flow/component/line.py:26 | The reversed list's phases are the original's in the opposite order. |
| LineModel.GenerateSvgLines | dg_drawer/research_flow/component/line.py:22-36 | The caller's outer list ends up reversed in place, and the inner lists are unchanged. The result is the line of every edge of the original phases, in loop order. |
| FrameModel.ColumnXClosedForm | dg_drawer/research_flow/component/frame.py:21-36 | The running `start_x` of column i is `i * phase_width`. |
| FrameModel.Frame.GenerateHeaders | dg_drawer/research_flow/component/frame.py:19-38 | Fails exactly when there are more than nine phases, with the lookup's `EnumValueError(9)`. Otherwise there is one header per phase, in phase order. Header i has x = ColumnX(i), y = 0, the phase width, the header height, palette colour i, the phase name as text and white text. |
| FrameModel.Frame.GenerateBodies | dg_drawer/research_flow/component/frame.py:40-55 | One body per phase, in phase order. Body i has x = ColumnX(i), y = header height, the phase width, the body height, fill `#ffffff` and no text. |
| FrameModel.Frame.GenerateFrame | dg_drawer/research_flow/component/frame.py:57-67 | The same failure as the headers. Otherwise 2n rectangles: every header in phase order, then every body in phase order. |
| FrameModel.ColumnsTile | dg_drawer/research_flow/component/frame.py:19-55 | The first column starts at 0. The right edge of column i is the left edge of column i+1, for headers and bodies alike. |
| FrameModel.BodyBelowHeader | dg_drawer/research_flow/component/frame.py:24-48 | Each body starts where its header ends vertically, with the same x and width. |
| FrameModel.FrameWidth | dg_drawer/research_flow/component/frame.py:40-55 | The last column's right edge is n × phase width. |
| Sorting.InsertSorted | dg_drawer/research_flow/flow_drawer.py:100 | Inserting into a sorted list keeps it sorted and adds exactly the element. |
| Sorting.SortByCorrect | dg_drawer/research_flow/flow_drawer.py:100 | The key sort returns a permutation of its input, ascending by key. |
| Sorting.InsertWithKey | dg_drawer/research_flow/flow_drawer.py:100 | Insertion puts the element in front of the others with its key. |
| Sorting.SortByStable | dg_drawer/research_flow/flow_drawer.py:100 | Stability: the elements with any one key keep their input order. |
| Sorting.SortBySortedIsIdentity | dg_drawer/research_flow/component/node.py:22 | Sorting a list that is already sorted returns it unchanged. |
| Sorting.SortIntsCorrect | dg_drawer/research_flow/component/node.py:22 | `sorted` on integers gives an ascending permutation, and is the identity on ascending input. So re-sorting sorted parent ids changes nothing. |
| Sorting.SortIntsHeadIsMin | dg_drawer/research_flow/component/node.py:22 | The head of a sorted non-empty list is in the list and is its minimum. |
| Ordering.SortById | dg_drawer/research_flow/flow_drawer.py:256-265 | Keeps the length and the multiset of nodes. |
| Ordering.SortByIdCorrect | dg_drawer/research_flow/flow_drawer.py:256-265 | `sort_nodes_by_id` is a permutation, ascending by id, and stable among nodes with equal ids. |
| Ordering.PriorityParentIsMin | dg_drawer/research_flow/flow_drawer.py:281-282 | `sorted(parent_ids)[0]` is one of the parent ids, and the smallest. |
| Ordering.SortNodesByPrePhaseNodes | dg_drawer/research_flow/flow_drawer.py:267-284 | Returns `GroupByPrior`: the groups of the preceding nodes, in the preceding phase's order. Each group holds, in input order, the targets whose smallest parent id is that node's id. It raises `IndexError` exactly when there is a preceding node and some target has no parents. |
| Ordering.ChildrenOf | dg_drawer/research_flow/flow_drawer.py:280-283 | The inner loop collects, in input order, the targets whose smallest parent id is the given id. It raises `IndexError` when a target has no parents. |
| Ordering.GetChildNodeNum | dg_drawer/research_flow/flow_drawer.py:322-331 | Raises `IndexError` exactly when some target has no parents. Otherwise the count equals the size of that id's group in `sort_nodes_by_pre_phase_nodes`. |
| Ordering.ChildrenCount | dg_drawer/research_flow/flow_drawer.py:280-283 | A target occurs in an id's group exactly as often as in the targets when its smallest parent is that id, and otherwise not at all. |
| Ordering.GroupedAppend | dg_drawer/research_flow/flow_drawer.py:278-284 | The output follows the order of the preceding phase: concatenating preceding lists concatenates their groups. |
| Ordering.GroupedCount | dg_drawer/research_flow/flow_drawer.py:278-284 | A target appears once per preceding node carrying its smallest parent id, times its own multiplicity. A target whose smallest parent is absent is dropped. One with several parents is listed only under the smallest. |
| Ordering.IdCountUnique | dg_drawer/research_flow/flow_drawer.py:278-279 | With unique preceding ids, an id occurs once exactly when some preceding node carries it. |
| Ordering.GroupedIsSelection | dg_drawer/research_flow/flow_drawer.py:278-284 | With unique preceding ids and distinct targets, the output has no repeats. A target is in it exactly when its smallest parent id is some preceding node's id. |
| Ordering.OrderPhases | dg_drawer/research_flow/flow_drawer.py:226-252 | A success keeps one phase per input phase, each holding only nodes of that input phase. The only error is `IndexError`. |
| Ordering.OrderPhasesOk | dg_drawer/research_flow/flow_drawer.py:240-252 | If every later phase's nodes all have parents, the ordering succeeds. |
| Ordering.OrderPhasesPrefix | dg_drawer/research_flow/flow_drawer.py:240-252 | The ordering works phase by phase. A failure on a prefix is the whole result. A success restricts to the prefix. |
| Ordering.OrderPhasesFirst | dg_drawer/research_flow/flow_drawer.py:241-244 | Phase 0 is sorted by id. |
| Ordering.OrderPhasesNext | dg_drawer/research_flow/flow_drawer.py:245-251 | Phase i is grouped along the already ordered phase i−1, or the grouping's error is the result. |
| Ordering.OrderPhasesShape | dg_drawer/research_flow/flow_drawer.py:240-252 | In a success, phase 0 is `SortById` of its input, and every phase i > 0 is `GroupByPrior` of the ordered phase i−1 and input phase i. |
| Ordering.OrderPhasesLater | dg_drawer/research_flow/flow_drawer.py:245-251 | In a success, every later phase is the grouping of its input along the ordered phase before it. |
| Ordering.SortNodesEachPhase | dg_drawer/research_flow/flow_drawer.py:226-252 | The loop computes `OrderPhases` of its input. |
| FlowDrawer.SortPhaseDataBySeqNumber | dg_drawer/research_flow/flow_drawer.py:90-101 | A permutation of the phases, ascending by sequence number, with the missing number as the largest key. |
| FlowDrawer.UnnumberedPhasesLast | dg_drawer/research_flow/flow_drawer.py:100 | After sorting, no numbered phase follows an unnumbered one, and numbered phases are in ascending order. |
| FlowDrawer.PhaseSortStable | dg_drawer/research_flow/flow_drawer.py:100 | Phases with equal sequence numbers, or none, keep their input order. |
| FlowDrawer.NewNode | dg_drawer/research_flow/flow_drawer.py:67-85 | A new node built from the raw record, with sorted parent ids. Status `complete` gives stroke black of width 1. Any other status gives red of width 2. |
| FlowDrawer.GetNodes | dg_drawer/research_flow/flow_drawer.py:57-87 | One new, distinct node per raw node, in input order, each built as `NewNode` says. |
| FlowDrawer.NodeYClosedForm | dg_drawer/research_flow/flow_drawer.py:117-131 | Node k of a column sits at `header_height + top_margin + k * between_node_vertical_length`. It is strictly lower than node k−1 when the step is positive. |
| FlowDrawer.PlaceNode | dg_drawer/research_flow/flow_drawer.py:122-128 | Sets cy, cx and cr, then looks up the colour. The fill is set exactly when the index is in 0..8, to the palette's node colour. Otherwise it raises `EnumValueError(index)` with the fill unchanged. |
| FlowDrawer.SetNodeLocation | dg_drawer/research_flow/flow_drawer.py:103-133 | Raises `EnumValueError(index)` exactly when the list is non-empty and the index is off the palette. In that case only the first node has moved, and it keeps its old fill. Otherwise it returns the same list with every node at x `node_x`, radius `node_r` and palette node colour `color_index`. Node k sits at the k-th y of the column (its last position, if listed twice). |
| FlowDrawer.MaxPhaseSize | dg_drawer/research_flow/flow_drawer.py:148-154 | The largest phase size: no phase is larger and some phase reaches it. It is 0 when there are no phases. |
| FlowDrawer.CalculateBodyHeight | dg_drawer/research_flow/flow_drawer.py:135-156 | The scan finds `MaxPhaseSize`. The height is `top_margin + (max − 1) * 100 + bottom_margin`, with the literal step 100. |
| FlowDrawer.GenerateDummyNodes | dg_drawer/research_flow/flow_drawer.py:333-344 | `max(node_num, 0)` placeholder nodes, each a new object and no two the same. Each has id −1, the given parent ids sorted, empty name and status, start time 0, stroke width 0 and the other defaults. |
| FlowDrawer.NodeXClosedForm | dg_drawer/research_flow/flow_drawer.py:193-198 | The x of column i is `W div (2n) + i * (W div n)`. |
| FlowDrawer.FirstXIsHalfColumn | dg_drawer/research_flow/flow_drawer.py:172-193 | `floor(W/n/2)` equals half the column width, rounded down. |
| FlowDrawer.NodeInColumn | dg_drawer/research_flow/flow_drawer.py:172-198 | Column i's nodes lie inside column i, within [i·w, (i+1)·w), whenever a column is at least 1 wide. |
| FlowDrawer.ImageWidth | dg_drawer/research_flow/flow_drawer.py:224 | The image width `(W div n) * n` is W rounded down to a multiple of n. |
| FlowDrawer.BuildPhases | dg_drawer/research_flow/flow_drawer.py:181-183 | One list of new nodes per phase, each built from its raw record. No node sits at two positions, within a phase or across phases (`Separate`). |
| FlowDrawer.PlaceColumn | dg_drawer/research_flow/flow_drawer.py:196 | Places phase `index` at colour `index` and column x `NodeX(index)`. It raises exactly for a non-empty phase at index 9 or more. |
| FlowDrawer.PlacePhases | dg_drawer/research_flow/flow_drawer.py:191-198 | Raises exactly when some non-empty phase has index 9 or more, with the first such index. Otherwise every node of phase i is in column i, at palette colour i and radius 10, and at its row's y. |
| FlowDrawer.Markup | dg_drawer/research_flow/flow_drawer.py:213-218 | One circle and one label per node, phase after phase, in list order. |
| FlowDrawer.PhaseNames | dg_drawer/research_flow/component/frame.py:22-23 | The phase names, in phase order. |
| FlowDrawer.DisjointWithin | dg_drawer/research_flow/flow_drawer.py:240-252 | Ordering keeps each node in its phase, so phases built apart stay apart. |
| FlowDrawer.BuiltPhasesOrder | dg_drawer/research_flow/flow_drawer.py:281-282 | If every raw node of a later phase lists a parent, the built nodes can be ordered without error. |
| FlowDrawer.PrepareNodes | dg_drawer/research_flow/flow_drawer.py:181-186 | Builds one new node per raw node, ghost `built`, no node at two positions (`Separate`). Each node carries its raw record: id, sorted parent ids, name, start time, status, link and the status stroke, and it is not yet placed. The result is exactly `sort_nodes_each_phase` of `built`, so it fails exactly when that ordering raises, always with `IndexError`. It never fails when every later node lists a parent. A success has one phase per input phase, of new nodes, none shared between phases. |
| FlowDrawer.DrawLines | dg_drawer/research_flow/flow_drawer.py:210 | The lines of every edge of the placed phases, and the list that the call leaves reversed. |
| FlowDrawer.Render | dg_drawer/research_flow/flow_drawer.py:210-218 | The lines of every edge. Then every node's circle and label, latest phase first, because the lines' in-place reverse happened first. |
| FlowDrawer.FrameStage | dg_drawer/research_flow/flow_drawer.py:201-207 | The body height, and the frame of those names and sizes. It fails exactly for more than nine names. |
| FlowDrawer.PlaceAll | dg_drawer/research_flow/flow_drawer.py:181-198 | The nodes are new, separate objects carrying their raw records. An ordering failure is `IndexError`. Past the ordering, placing fails exactly when some ordered non-empty phase has index 9 or more, with the first such index. A success is the ordered `built`, every node placed. At most nine phases whose later nodes all list parents always succeed. |
| FlowDrawer.DistinctRows | dg_drawer/research_flow/flow_drawer.py:117-131 | In a placed phase that lists no node twice, node k sits at the k-th y of the column, so no two share a row. |
| FlowDrawer.FirstOrderedDistinct | dg_drawer/research_flow/flow_drawer.py:241-244 | Ordering separately built phases leaves the first phase without repeats, since `sort_nodes_by_id` only permutes it. |
| FlowDrawer.LaterOrderedDistinct | dg_drawer/research_flow/flow_drawer.py:245-251 | A later ordered phase has no repeats when no two nodes of the ordered phase before it share an id. |
| FlowDrawer.DrawnRows | dg_drawer/research_flow/flow_drawer.py:181-198 | In a drawing of separately built nodes, the first phase's nodes sit one row apart, node k at row k. A later phase's nodes do too whenever the phase before it has no repeated id. |
| FlowDrawer.Assemble | dg_drawer/research_flow/flow_drawer.py:200-224 | Fails exactly for more than nine phases. A success has width `phase_width * n` and height `header_height + body height`, and holds the frame, the edge lines and the reversed-order markup (`DrawingOf`). |
| FlowDrawer.DrawSorted | dg_drawer/research_flow/flow_drawer.py:170-224 | The built nodes are new, separate objects carrying their raw records. The first error wins. A failed ordering is `IndexError`. Then a non-empty ordered phase past the palette is `EnumValueError` with its index. Then more than nine phases is `EnumValueError(9)`. Otherwise it succeeds. A success holds the ordering of `built` with every node placed, and the frame, the edge lines, the reversed markup and the image size. |
| FlowDrawer.Draw | dg_drawer/research_flow/flow_drawer.py:158-224 | No phases is `ZeroDivisionError`. Otherwise the errors and the image are those of `DrawSorted` on the phases sorted by sequence number. The full contract is listed below the table. |

`FlowDrawer.Draw`'s contract, in full:

- It returns, as ghost `built`, the nodes it builds: one new object per raw node of the phases sorted by sequence number, no object at two positions (`Separate`). So two identical records are two circles, one row apart in the first phase (`FlowDrawer.DrawnRows`). Each node keeps its raw record: id, sorted parent ids, name, start time, status, link and the status stroke. Placing changes only position, radius and fill.
- No phases is `ZeroDivisionError`.
- Otherwise the first error wins:
  - If ordering `built` by `sort_nodes_each_phase` raises, the error is `IndexError`.
  - If it does not, a non-empty ordered phase at index 9 or more raises `EnumValueError`, with the first such index.
  - If neither happens, more than nine phases raise `EnumValueError(9)` in the frame.
  - Every other input succeeds. In particular, one to nine phases whose later nodes all list parents always succeed.
- A success's phases are exactly the ordering of `built`. It has one placed phase per input phase and width `(W div n) * n`. Its height is `header_height` plus the body height.
- Its frame is built from the sorted phase names.
- Every node is placed in its column, row and colour.
- Its lines are exactly the edges.
- Its markup lists every node, last phase first.

## Left out

- Loading `raw_data` (the `phase_data` dictionaries and JSON files) is not modelled. The constructor's configuration is the `Config` datatype, and a phase is the `PhaseData` record. A missing dictionary key (`KeyError`) is therefore not modelled.
- The SVG string templates are not modelled. This covers `pack_svg_tag`, `Rectangle.generate_svg_component`, `Label.generate_svg_component` and the `<line>`/`<circle>` templates. Markup is modelled as the records the templates are filled from.
- The text centring in `Rectangle` uses float division, and is not modelled.
- `draw` uses `math.floor` over float division. It is modelled as integer floor division, which agrees for a positive phase count and a width below 2^53 in magnitude. For wider widths the rounded float quotient can differ: for W = 3·2^53 − 1 and three phases, `math.floor(W / 3)` is 2^53 while `W div 3` is 2^53 − 1. That rounding is not modelled (`FlowDrawer.PhaseWidth`, `FlowDrawer.FirstX`). Zero phases is the `ZeroDivisionError` raised at `dg_drawer/research_flow/flow_drawer.py:172`.
- The commented-out `rearrange_nodes_each_phase` (`dg_drawer/research_flow/flow_drawer.py:286-320`) is not modelled. `generate_dummy_nodes` and `get_child_node_num_by_id`, which it would use, are modelled.
- Node ids and parent ids are modelled as integers, following the `id:int, parent_ids:list[int]` hints at `dg_drawer/research_flow/component/node.py:7` and `target_node_id:int` at `dg_drawer/research_flow/flow_drawer.py:322`. Ids given as strings reach the same code unchanged, and their `sorted` order (`dg_drawer/research_flow/component/node.py:22`, `dg_drawer/research_flow/flow_drawer.py:265`, `dg_drawer/research_flow/flow_drawer.py:281` and `dg_drawer/research_flow/flow_drawer.py:326`) is then lexicographic, so '10' precedes '9'. That order is not captured.
- `Frame` is given the phase names rather than the phase dictionaries, because it reads only `phase_name` from them.
- `LineModel.EdgeLine` returns a zero-length line for an edge whose positions are out of range. That branch is never reached, because every enumerated edge is real (`LineModel.EdgesExactlyOnce`).
- The setters' "nothing else changes" is stated by each method's field frame (`modifies this`field`), not by an `ensures`.
- `draw` builds a new list of the placed phases before `generate_svg_lines` reverses it. That list is modelled as a fresh array (`FlowDrawer.NewPhaseList`).
- FlowDrawer.Draw: the ordering error is stated through `Ordering.OrderPhases` of the built nodes, not as a closed-form condition on the raw records. It raises `IndexError` for a later phase holding a node without parents, but only when the already ordered phase before it is non-empty (`Ordering.GroupByPrior`), and grouping can leave that ordered phase empty.
- Concurrency and I/O: the core has none beyond the JSON loading above.
