/**
 * The order of the nodes within each phase. The first phase is sorted by node
 * id; every later phase is regrouped along the already ordered preceding
 * phase, each node joining the group of its smallest ("priority") parent id.
 */
module Ordering {
  import opened Errors
  import opened Sorting
  import opened Sequences
  import opened NodeModel

  // ---- `sort_nodes_by_id`: `sorted(nodes, key=lambda x: x.id)` ----

  /** The sort key of `sorted(..., key=lambda x: x.id)`, taken from the current ids of `nodes`. */
  function IdKey(nodes: seq<Node>): Node -> Rank
    reads nodes`id
  {
    var ids := map n | n in nodes :: n.id;
    n => if n in ids then At(ids[n]) else Top
  }

  lemma IdKeyIsId(nodes: seq<Node>, n: Node)
    requires n in nodes
    ensures IdKey(nodes)(n) == At(n.id)
  {
  }

  /** `sort_nodes_by_id`. */
  function SortById(nodes: seq<Node>): (r: seq<Node>)
    reads nodes`id
    ensures |r| == |nodes| && multiset(r) == multiset(nodes)
  {
    SortByCorrect(nodes, IdKey(nodes));
    SortBy(nodes, IdKey(nodes))
  }

  /** The nodes of `s` whose id is `id`, in their order in `s`. */
  function WithId(s: seq<Node>, id: int): seq<Node>
    reads s`id
  {
    if s == [] then []
    else WithId(s[..|s| - 1], id) + (if s[|s| - 1].id == id then [s[|s| - 1]] else [])
  }

  lemma {:induction false} WithKeyIsWithId(s: seq<Node>, nodes: seq<Node>, id: int)
    requires forall n :: n in s ==> n in nodes
    ensures WithKey(s, IdKey(nodes), At(id)) == WithId(s, id)
  {
    if s != [] {
      WithKeyIsWithId(s[1..], nodes, id);
      WithIdFront(s, id);
      IdKeyIsId(nodes, s[0]);
    }
  }

  /** `WithId` peels off the front as well as the back. */
  lemma {:induction false} WithIdFront(s: seq<Node>, id: int)
    requires s != []
    ensures WithId(s, id) == (if s[0].id == id then [s[0]] else []) + WithId(s[1..], id)
  {
    if |s| > 1 {
      var init := s[..|s| - 1];
      WithIdFront(init, id);
      assert init[1..] == s[1..][..|s[1..]| - 1];
      assert init[0] == s[0];
    } else {
      assert s[..0] == [] && s[1..] == [];
    }
  }

  /**
   * `sorted` by id: a permutation of the input, ascending by id, and stable —
   * the nodes sharing an id keep their input order.
   */
  lemma SortByIdCorrect(nodes: seq<Node>, id: int)
    ensures multiset(SortById(nodes)) == multiset(nodes)
    ensures forall i, j :: 0 <= i < j < |nodes| ==> SortById(nodes)[i].id <= SortById(nodes)[j].id
    ensures WithId(SortById(nodes), id) == WithId(nodes, id)
  {
    var key := IdKey(nodes);
    var r := SortById(nodes);
    SortByCorrect(nodes, key);
    SortByStable(nodes, key, At(id));
    forall n | n in r ensures n in nodes {
      assert n in multiset(r);
    }
    forall i, j | 0 <= i < j < |nodes| ensures r[i].id <= r[j].id {
      assert RankLe(key(r[i]), key(r[j]));
      IdKeyIsId(nodes, r[i]);
      IdKeyIsId(nodes, r[j]);
    }
    WithKeyIsWithId(r, nodes, id);
    WithKeyIsWithId(nodes, nodes, id);
  }

  // ---- `sort_nodes_by_pre_phase_nodes` ----

  /** No target has an empty parent list, so `sorted(parent_ids)[0]` is defined for each. */
  predicate AllHaveParents(ts: seq<Node>)
    reads ts`parentIds
  {
    forall k :: 0 <= k < |ts| ==> ts[k].parentIds != []
  }

  /** `sorted(target_node.parent_ids)[0]`: the parent a node is grouped under. */
  function PriorityParent(t: Node): int
    reads t`parentIds
    requires t.parentIds != []
  {
    SortInts(t.parentIds)[0]
  }

  /** The priority parent is the smallest parent id. */
  lemma PriorityParentIsMin(t: Node)
    requires t.parentIds != []
    ensures PriorityParent(t) in t.parentIds
    ensures forall x :: x in t.parentIds ==> PriorityParent(t) <= x
  {
    SortIntsHeadIsMin(t.parentIds);
  }

  /** The targets whose priority parent is `id`, in their input order. */
  function Children(id: int, ts: seq<Node>): (r: seq<Node>)
    reads ts`parentIds
    requires AllHaveParents(ts)
    ensures forall n :: n in r ==> n in ts
  {
    if ts == [] then []
    else
      var last := ts[|ts| - 1];
      Children(id, ts[..|ts| - 1]) + (if PriorityParent(last) == id then [last] else [])
  }

  /** The groups of the nodes of `pre`, one after another in the order of `pre`. */
  function Grouped(pre: seq<Node>, ts: seq<Node>): (r: seq<Node>)
    reads pre`id, ts`parentIds
    requires pre == [] || AllHaveParents(ts)
    ensures forall n :: n in r ==> n in ts
  {
    if pre == [] then []
    else Grouped(pre[..|pre| - 1], ts) + Children(pre[|pre| - 1].id, ts)
  }

  /** What `sort_nodes_by_pre_phase_nodes` returns or raises. */
  function GroupByPrior(pre: seq<Node>, ts: seq<Node>): Result<seq<Node>>
    reads pre`id, ts`parentIds
  {
    if pre != [] && !AllHaveParents(ts) then Err(IndexError) else Ok(Grouped(pre, ts))
  }

  /**
   * `sort_nodes_by_pre_phase_nodes`: for each node of the preceding phase in
   * turn, the targets whose smallest parent id is that node's id. The first
   * pass over the targets indexes `[0]` of each one's parent list, so a
   * target without parents raises as soon as there is a preceding node.
   */
  method SortNodesByPrePhaseNodes(pre: seq<Node>, ts: seq<Node>) returns (r: Result<seq<Node>>)
    ensures r == GroupByPrior(pre, ts)
  {
    var sorted: seq<Node> := [];
    for i := 0 to |pre|
      invariant i > 0 ==> AllHaveParents(ts)
      invariant sorted == Grouped(pre[..i], ts)
    {
      ghost var all := AllHaveParents(ts);
      ghost var next: seq<Node> := [];
      if all {
        GroupedStep(pre, ts, i);
        next := Grouped(pre[..i + 1], ts);
      }
      label L:
      var group := ChildrenOf(pre[i].id, ts);
      assert unchanged@L(pre) && unchanged@L(ts);
      assert all == AllHaveParents(ts);
      if group.Err? {
        return Err(IndexError);
      }
      assert next == Grouped(pre[..i + 1], ts);
      sorted := sorted + group.value;
    }
    assert pre[..|pre|] == pre;
    return Ok(sorted);
  }

  /** The inner loop of `sort_nodes_by_pre_phase_nodes`: the targets whose smallest parent id is `preId`. */
  method ChildrenOf(preId: int, ts: seq<Node>) returns (r: Result<seq<Node>>)
    ensures r == if AllHaveParents(ts) then Ok(Children(preId, ts)) else Err(IndexError)
  {
    var group: seq<Node> := [];
    for j := 0 to |ts|
      invariant AllHaveParents(ts[..j])
      invariant group == Children(preId, ts[..j])
    {
      var t := ts[j];
      var parentIds := SortInts(t.parentIds);
      if |parentIds| == 0 {
        assert !AllHaveParents(ts) by {
          assert ts[j].parentIds == [];
        }
        return Err(IndexError);
      }
      ChildrenStep(preId, ts, j);
      if preId == parentIds[0] {
        group := group + [t];
      }
    }
    assert ts[..|ts|] == ts;
    return Ok(group);
  }

  /** One more preceding node appends its group. */
  lemma GroupedStep(pre: seq<Node>, ts: seq<Node>, i: nat)
    requires i < |pre| && AllHaveParents(ts)
    ensures Grouped(pre[..i + 1], ts) == Grouped(pre[..i], ts) + Children(pre[i].id, ts)
  {
    assert pre[..i + 1][..i] == pre[..i];
  }

  /** One more target extends the group by that target when `id` is its priority parent. */
  lemma ChildrenStep(id: int, ts: seq<Node>, j: nat)
    requires j < |ts| && AllHaveParents(ts[..j]) && ts[j].parentIds != []
    ensures AllHaveParents(ts[..j + 1])
    ensures Children(id, ts[..j + 1]) == Children(id, ts[..j]) + if PriorityParent(ts[j]) == id then [ts[j]] else []
  {
    assert ts[..j + 1] == ts[..j] + [ts[j]];
  }

  /** `get_child_node_num_by_id`: how many targets have `id` as priority parent. */
  method GetChildNodeNum(id: int, ts: seq<Node>) returns (r: Result<nat>)
    ensures r.Err? <==> !AllHaveParents(ts)
    ensures r.Err? ==> r.error == IndexError
    ensures r.Ok? ==> r.value == |Children(id, ts)|
  {
    var count := 0;
    for j := 0 to |ts|
      invariant AllHaveParents(ts[..j])
      invariant count == |Children(id, ts[..j])|
    {
      var parentIds := SortInts(ts[j].parentIds);
      if |parentIds| == 0 {
        assert ts[j].parentIds == [];
        return Err(IndexError);
      }
      ChildrenStep(id, ts, j);
      if parentIds[0] == id {
        count := count + 1;
      }
    }
    assert ts[..|ts|] == ts;
    return Ok(count);
  }

  // ---- Properties of the grouping ----

  /** How many nodes of `pre` carry the id `id`. */
  function IdCount(pre: seq<Node>, id: int): nat
    reads pre`id
  {
    if pre == [] then 0
    else IdCount(pre[..|pre| - 1], id) + (if pre[|pre| - 1].id == id then 1 else 0)
  }

  /**
   * A group holds each target whose priority parent is `id` as often as the
   * input does, and nothing else, so `get_child_node_num_by_id` counts it.
   */
  lemma {:induction false} ChildrenCount(id: int, ts: seq<Node>, t: Node)
    requires AllHaveParents(ts)
    ensures multiset(Children(id, ts))[t] == if t in ts && PriorityParent(t) == id then multiset(ts)[t] else 0
  {
    if ts != [] {
      var init: seq<Node>, last: Node := ts[..|ts| - 1], ts[|ts| - 1];
      AllHaveParentsInit(ts);
      ChildrenCount(id, init, t);
      var here: seq<Node> := if PriorityParent(last) == id then [last] else [];
      assert Children(id, ts) == Children(id, init) + here;
      assert multiset(Children(id, init) + here) == multiset(Children(id, init)) + multiset(here);
      MultisetLast(ts, t);
      if t !in init {
        assert multiset(init)[t] == 0;
      }
    }
  }

  lemma AllHaveParentsInit(ts: seq<Node>)
    requires ts != [] && AllHaveParents(ts)
    ensures AllHaveParents(ts[..|ts| - 1])
  {
    var init := ts[..|ts| - 1];
    forall k | 0 <= k < |init| ensures init[k].parentIds != [] {
      assert init[k] == ts[k];
    }
  }

  /** Concatenating the preceding phases concatenates the groups: the output follows `pre`'s order. */
  lemma {:induction false} GroupedAppend(pre1: seq<Node>, pre2: seq<Node>, ts: seq<Node>)
    requires AllHaveParents(ts)
    ensures Grouped(pre1 + pre2, ts) == Grouped(pre1, ts) + Grouped(pre2, ts)
  {
    if pre2 != [] {
      var init := pre2[..|pre2| - 1];
      GroupedAppend(pre1, init, ts);
      assert (pre1 + pre2)[..|pre1 + pre2| - 1] == pre1 + init;
      assert (pre1 + pre2)[|pre1 + pre2| - 1] == pre2[|pre2| - 1];
    } else {
      assert pre1 + pre2 == pre1;
    }
  }

  /**
   * Each target appears in the output once per preceding node whose id is its
   * priority parent (and as often as it appears among the targets): a target
   * whose priority parent is not in `pre` is dropped, and one with several
   * parents is listed only under the smallest.
   */
  lemma {:induction false} GroupedCount(pre: seq<Node>, ts: seq<Node>, t: Node)
    requires AllHaveParents(ts)
    ensures multiset(Grouped(pre, ts))[t] ==
            if t in ts then IdCount(pre, PriorityParent(t)) * multiset(ts)[t] else 0
  {
    if pre != [] {
      var init, last := pre[..|pre| - 1], pre[|pre| - 1];
      var g, ch := multiset(Grouped(init, ts))[t], multiset(Children(last.id, ts))[t];
      assert multiset(Grouped(pre, ts))[t] == g + ch by {
        assert Grouped(pre, ts) == Grouped(init, ts) + Children(last.id, ts);
      }
      GroupedCount(init, ts, t);
      ChildrenCount(last.id, ts, t);
      if t in ts {
        var c, m := IdCount(init, PriorityParent(t)), multiset(ts)[t];
        var d := if last.id == PriorityParent(t) then 1 else 0;
        var n := IdCount(pre, PriorityParent(t));
        assert n == c + d;
        CountStep(g, ch, c, d, m, n);
      } else {
        assert g == 0 && ch == 0;
      }
    }
  }

  /** One step of the count: `c` copies then `d` copies, each `m` times, make `c + d` copies `m` times. */
  lemma CountStep(g: nat, ch: nat, c: nat, d: nat, m: nat, n: nat)
    requires g == c * m && ch == d * m && n == c + d
    ensures g + ch == n * m
  {
    Distribute(c, d, m);
  }

  lemma Distribute(c: nat, d: nat, m: nat)
    ensures (c + d) * m == c * m + d * m
  {
  }

  /** Ids that occur at most once in `pre`. */
  ghost predicate UniqueIds(pre: seq<Node>)
    reads pre`id
  {
    forall a, b :: 0 <= a < b < |pre| ==> pre[a].id != pre[b].id
  }

  lemma {:induction false} IdCountUnique(pre: seq<Node>, id: int)
    requires UniqueIds(pre)
    ensures IdCount(pre, id) <= 1
    ensures IdCount(pre, id) == 1 <==> exists k :: 0 <= k < |pre| && pre[k].id == id
  {
    if pre != [] {
      var init := pre[..|pre| - 1];
      assert UniqueIds(init) by {
        forall a, b | 0 <= a < b < |init| ensures init[a].id != init[b].id {
          assert init[a] == pre[a] && init[b] == pre[b];
        }
      }
      IdCountUnique(init, id);
      if exists k :: 0 <= k < |init| && init[k].id == id {
        var k :| 0 <= k < |init| && init[k].id == id;
        assert pre[k] == init[k];
      }
      if exists k :: 0 <= k < |pre| && pre[k].id == id {
        var k :| 0 <= k < |pre| && pre[k].id == id;
        if k < |init| {
          assert init[k] == pre[k];
        }
      }
    }
  }

  /**
   * With unique ids in the preceding phase and no node repeated among the
   * targets, no node appears twice in the output, and the output holds
   * exactly the targets whose priority parent is one of the preceding ids.
   */
  lemma GroupedIsSelection(pre: seq<Node>, ts: seq<Node>, t: Node)
    requires AllHaveParents(ts) && UniqueIds(pre) && Distinct(ts)
    ensures Distinct(Grouped(pre, ts))
    ensures t in Grouped(pre, ts) <==> t in ts && exists k :: 0 <= k < |pre| && pre[k].id == PriorityParent(t)
  {
    forall x | x in Grouped(pre, ts) ensures multiset(Grouped(pre, ts))[x] <= 1 {
      GroupedCount(pre, ts, x);
      DistinctCount(ts, x);
      if x in ts {
        IdCountUnique(pre, PriorityParent(x));
      }
    }
    CountAtMostOneIsDistinct(Grouped(pre, ts));
    GroupedCount(pre, ts, t);
    DistinctCount(ts, t);
    if t in ts {
      IdCountUnique(pre, PriorityParent(t));
    }
  }

  // ---- `sort_nodes_each_phase` ----

  /** One ordered phase per input phase, each holding only nodes of its input phase. */
  ghost predicate PhasesWithin(r: seq<seq<Node>>, ps: seq<seq<Node>>) {
    |r| == |ps| && forall i, n :: 0 <= i < |ps| && n in r[i] ==> n in ps[i]
  }

  /**
   * What `sort_nodes_each_phase` returns or raises: the first phase sorted by
   * id, and every later phase grouped along the already ordered phase before it.
   */
  function OrderPhases(ps: seq<seq<Node>>): (r: Result<seq<seq<Node>>>)
    reads NodesOf(ps)`id, NodesOf(ps)`parentIds
    ensures r.Ok? ==> PhasesWithin(r.value, ps)
    ensures r.Err? ==> r.error == IndexError
    decreases |ps|
  {
    if ps == [] then Ok([])
    else if |ps| == 1 then
      NodesOfPhase(ps, 0);
      var first := SortById(ps[0]);
      assert forall n :: n in first ==> n in ps[0] by {
        forall n | n in first ensures n in ps[0] {
          assert n in multiset(first);
        }
      }
      Ok([first])
    else
      var init := ps[..|ps| - 1];
      NodesOfPrefix(ps, |ps| - 1);
      NodesOfPhase(ps, |ps| - 1);
      NodesOfPhase(ps, |ps| - 2);
      var done :- OrderPhases(init);
      assert PhasesWithin(done, init);
      var last :- GroupByPrior(done[|done| - 1], ps[|ps| - 1]);
      assert PhasesWithin(done + [last], ps) by {
        forall i, n | 0 <= i < |ps| && n in (done + [last])[i] ensures n in ps[i] {
          if i < |init| {
            assert (done + [last])[i] == done[i] && init[i] == ps[i];
          }
        }
      }
      Ok(done + [last])
  }

  /** The ordering fails only on a later phase holding a node without parents. */
  lemma {:induction false} OrderPhasesOk(ps: seq<seq<Node>>)
    requires forall i :: 1 <= i < |ps| ==> AllHaveParents(ps[i])
    ensures OrderPhases(ps).Ok?
    decreases |ps|
  {
    if |ps| > 1 {
      var init := ps[..|ps| - 1];
      assert forall i :: 1 <= i < |init| ==> AllHaveParents(init[i]) by {
        forall i | 1 <= i < |init| ensures AllHaveParents(init[i]) {
          assert init[i] == ps[i];
        }
      }
      OrderPhasesOk(init);
    }
  }

  /**
   * Ordering a prefix of the phases gives the prefix of the ordering, and an
   * error in a prefix is the error of the whole.
   */
  lemma {:induction false} OrderPhasesPrefix(ps: seq<seq<Node>>, j: nat)
    requires j <= |ps|
    ensures OrderPhases(ps[..j]).Err? ==> OrderPhases(ps) == OrderPhases(ps[..j])
    ensures OrderPhases(ps).Ok? ==> OrderPhases(ps[..j]) == Ok(OrderPhases(ps).value[..j])
    decreases |ps|
  {
    if j == |ps| {
      assert ps[..j] == ps;
      assert OrderPhases(ps).Ok? ==> OrderPhases(ps).value[..j] == OrderPhases(ps).value;
    } else {
      var init := ps[..|ps| - 1];
      assert init[..j] == ps[..j];
      OrderPhasesPrefix(init, j);
      if |ps| == 1 {
        assert ps[..j] == [];
      } else if OrderPhases(ps).Ok? {
        var v, w := OrderPhases(ps).value, OrderPhases(init).value;
        assert v[..|ps| - 1] == w;
        assert v[..j] == w[..j];
      }
    }
  }

  /** The first phase alone is sorted by id. */
  lemma OrderPhasesFirst(ps: seq<seq<Node>>)
    requires ps != []
    ensures OrderPhases(ps[..1]) == Ok([SortById(ps[0])])
  {
    assert ps[..1][0] == ps[0];
  }

  /** One more phase is grouped along the last ordered phase, or fails with its error. */
  lemma OrderPhasesNext(ps: seq<seq<Node>>, index: nat, sorted: seq<seq<Node>>)
    requires 0 < index < |ps| && OrderPhases(ps[..index]) == Ok(sorted)
    ensures var g := GroupByPrior(sorted[index - 1], ps[index]);
            OrderPhases(ps[..index + 1]) == if g.Err? then Err(g.error) else Ok(sorted + [g.value])
  {
    var p := ps[..index + 1];
    assert p[..index] == ps[..index] && p[index] == ps[index];
  }

  /**
   * A successful ordering sorts the first phase by id and groups each later
   * phase along the ordered phase before it.
   */
  lemma OrderPhasesShape(ps: seq<seq<Node>>, i: nat)
    requires OrderPhases(ps).Ok? && i < |ps|
    ensures var r := OrderPhases(ps).value;
            if i == 0 then r[0] == SortById(ps[0]) else GroupByPrior(r[i - 1], ps[i]) == Ok(r[i])
  {
    var r := OrderPhases(ps).value;
    if i == 0 {
      OrderPhasesPrefix(ps, 1);
      OrderPhasesFirst(ps);
      assert r[..1][0] == r[0];
    } else {
      OrderPhasesLater(ps, i, r);
    }
  }

  lemma OrderPhasesLater(ps: seq<seq<Node>>, i: nat, r: seq<seq<Node>>)
    requires OrderPhases(ps) == Ok(r) && 0 < i < |ps|
    ensures GroupByPrior(r[i - 1], ps[i]) == Ok(r[i])
  {
    var w := r[..i];
    TakeOneMore(r, i);
    OrderPhasesPrefix(ps, i + 1);
    OrderPhasesPrefix(ps, i);
    OrderPhasesNext(ps, i, w);
    var g := GroupByPrior(w[i - 1], ps[i]);
    SnocInjective(w, g.value, r[i]);
  }

  /** `sort_nodes_each_phase`, phase by phase. */
  method SortNodesEachPhase(ps: seq<seq<Node>>) returns (r: Result<seq<seq<Node>>>)
    ensures r == OrderPhases(ps)
  {
    var sorted: seq<seq<Node>> := [];
    for index := 0 to |ps|
      invariant OrderPhases(ps[..index]) == Ok(sorted)
    {
      if index == 0 {
        assert ps[..0] == [];
        OrderPhasesFirst(ps);
        var first := SortById(ps[index]);
        sorted := sorted + [first];
        assert sorted == [first];
      } else {
        label L:
        var nodes := SortNodesByPrePhaseNodes(sorted[index - 1], ps[index]);
        assert unchanged@L(NodesOf(ps[..index]));
        assert OrderPhases(ps[..index]) == Ok(sorted);
        OrderPhasesNext(ps, index, sorted);
        if nodes.Err? {
          OrderPhasesPrefix(ps, index + 1);
          return Err(nodes.error);
        }
        sorted := sorted + [nodes.value];
      }
    }
    assert ps[..|ps|] == ps;
    return Ok(sorted);
  }
}
