/** Drawing the lane of a flash-loan leg (pushNode, pushSegment and dedupeFundFlowSegments in
    api/service/fund_flow_graph.go): edges go into a map of nodes and a list of segments; the lane
    lists the nodes sorted by address and the first segment of every key. */
module LaneGraph {
  import opened Text
  import Sorting

  datatype LaneNode = LaneNode(id: string, roles: seq<string>, address: string)
  datatype Segment = Segment(source: string, target: string, action: string, asset: string, amount: string, tone: string)
  datatype Lane = Lane(nodes: seq<LaneNode>, segments: seq<Segment>)

  /** One edge to draw: the addresses at both ends with their roles, and what flows. */
  datatype Push = Push(from: string, fromRole: string, to: string, toRole: string,
                       action: string, asset: string, amount: string, tone: string)

  // ---- drawing edges into the node map and the segment list ----

  datatype Drawing = Drawing(nodes: map<string, LaneNode>, segments: seq<Segment>)

  function WithNode(nodes: map<string, LaneNode>, address: string, role: string): map<string, LaneNode> {
    var id := NormalizeAddress(address);
    if id == "" then nodes
    else if id in nodes then
      if role in nodes[id].roles then nodes
      else nodes[id := nodes[id].(roles := Sorting.Sort(ByText(), nodes[id].roles + [role]))]
    else nodes[id := LaneNode(id, [role], address)]
  }

  function Draw(d: Drawing, p: Push): Drawing {
    var source, target := NormalizeAddress(p.from), NormalizeAddress(p.to);
    Drawing(WithNode(WithNode(d.nodes, p.from, p.fromRole), p.to, p.toRole),
            if source == "" || target == "" then d.segments
            else d.segments + [Segment(source, target, p.action, p.asset, p.amount, p.tone)])
  }

  function DrawAll(edges: seq<Push>, k: nat): Drawing
    requires k <= |edges|
  {
    if k == 0 then Drawing(map[], []) else Draw(DrawAll(edges, k - 1), edges[k - 1])
  }

  function SegmentKey(s: Segment): string {
    s.source + "|" + s.target + "|" + NormalizeAddress(s.asset) + "|" + s.tone + "|" + s.action
  }

  function Deduped(segments: seq<Segment>, k: nat): seq<Segment>
    requires k <= |segments|
  {
    if k == 0 then [] else
      Deduped(segments, k - 1) + if FirstOfKey(segments, k - 1) then [segments[k - 1]] else []
  }

  predicate FirstOfKey(segments: seq<Segment>, i: nat)
    requires i < |segments|
  {
    forall j :: 0 <= j < i ==> SegmentKey(segments[j]) != SegmentKey(segments[i])
  }

  /** Keeps the first segment of every key: a map from key to segment, and the keys in order. */
  method DedupeFundFlowSegments(segments: seq<Segment>) returns (out: seq<Segment>)
    ensures out == Deduped(segments, |segments|)
  {
    hide SegmentKey;
    var grouped: map<string, Segment> := map[];
    var order: seq<string> := [];
    for k := 0 to |segments|
      invariant forall key :: key in grouped <==> exists j :: 0 <= j < k && SegmentKey(segments[j]) == key
      invariant |order| == |Deduped(segments, k)|
      invariant forall i :: 0 <= i < |order| ==> order[i] in grouped && grouped[order[i]] == Deduped(segments, k)[i]
    {
      var key := SegmentKey(segments[k]);
      if key in grouped {
        continue;
      }
      grouped := grouped[key := segments[k]];
      order := order + [key];
    }
    out := [];
    for i := 0 to |order|
      invariant out == Deduped(segments, |segments|)[..i]
    {
      out := out + [grouped[order[i]]];
    }
  }

  class LaneBuilder {
    var nodes: map<string, LaneNode>
    var segments: seq<Segment>

    constructor ()
      ensures nodes == map[] && segments == []
    {
      nodes, segments := map[], [];
    }

    method PushNode(address: string, role: string) returns (id: string)
      modifies this`nodes
      ensures id == NormalizeAddress(address) && nodes == WithNode(old(nodes), address, role)
    {
      id := NormalizeAddress(address);
      if id == "" {
        return;
      }
      if id in nodes {
        var existing := nodes[id];
        if role !in existing.roles {
          nodes := nodes[id := existing.(roles := Sorting.Sort(ByText(), existing.roles + [role]))];
        }
        return;
      }
      nodes := nodes[id := LaneNode(id, [role], address)];
    }

    method PushSegment(source: string, target: string, action: string, asset: string, amount: string, tone: string)
      modifies this`segments
      ensures segments == if source == "" || target == "" then old(segments)
                          else old(segments) + [Segment(source, target, action, asset, amount, tone)]
    {
      if source == "" || target == "" {
        return;
      }
      segments := segments + [Segment(source, target, action, asset, amount, tone)];
    }

    method DrawEdge(p: Push)
      modifies this
      ensures Drawing(nodes, segments) == Draw(old(Drawing(nodes, segments)), p)
    {
      var source := PushNode(p.from, p.fromRole);
      var target := PushNode(p.to, p.toRole);
      PushSegment(source, target, p.action, p.asset, p.amount, p.tone);
    }

    method DrawEdges(pushes: seq<Push>, ghost edges: seq<Push>, ghost at: nat)
      requires at + |pushes| <= |edges| && Drawing(nodes, segments) == DrawAll(edges, at)
      requires forall i :: 0 <= i < |pushes| ==> edges[at + i] == pushes[i]
      modifies this
      ensures Drawing(nodes, segments) == DrawAll(edges, at + |pushes|)
    {
      hide Draw;
      for i := 0 to |pushes|
        invariant Drawing(nodes, segments) == DrawAll(edges, at + i)
      {
        DrawEdge(pushes[i]);
      }
    }
  }

  // ---- listing the nodes: map iteration order does not matter ----

  function ByAddress(): (LaneNode, LaneNode) -> bool {
    (a: LaneNode, b: LaneNode) => StrLess(a.address, b.address)
  }

  /** The map is keyed by node id, which is the normalised address of the node. */
  ghost predicate WellKeyed(nodes: map<string, LaneNode>) {
    forall id :: id in nodes ==> nodes[id].id == id == NormalizeAddress(nodes[id].address)
  }

  /** The list holds exactly the nodes of the map, in strictly increasing address order. */
  ghost predicate ListsNodes(nodes: map<string, LaneNode>, list: seq<LaneNode>) {
    && (forall n :: n in list <==> n.id in nodes && nodes[n.id] == n)
    && Sorting.StrictlySorted(ByAddress(), list)
  }

  lemma {:induction false} AddressIsStrictWeak()
    ensures Sorting.StrictWeak(ByAddress())
  {
    forall a: LaneNode, b: LaneNode ensures ByAddress()(a, b) ==> !ByAddress()(b, a) {
      StrLessTotal(a.address, b.address);
    }
    forall a: LaneNode, b: LaneNode, c: LaneNode | ByAddress()(a, c) ensures ByAddress()(a, b) || ByAddress()(b, c) {
      StrLessTotal(a.address, b.address);
      StrLessTotal(b.address, c.address);
      if StrLess(b.address, a.address) {
        StrLessTransitive(b.address, a.address, c.address);
      }
    }
  }

  method NodesByAddress(nodes: map<string, LaneNode>) returns (list: seq<LaneNode>)
    requires WellKeyed(nodes)
    ensures ListsNodes(nodes, list)
  {
    var keys := nodes.Keys;
    var listed: seq<LaneNode> := [];
    while keys != {}
      invariant keys <= nodes.Keys && Sorting.Distinct(listed)
      invariant forall n :: n in listed <==> n.id in nodes.Keys - keys && nodes[n.id] == n
      decreases |keys|
    {
      var id :| id in keys;
      listed := listed + [nodes[id]];
      keys := keys - {id};
    }
    list := Sorting.Sort(ByAddress(), listed);
    forall n ensures n in list <==> n in listed {
      Sorting.SameElements(list, listed, n);
    }
    AddressIsStrictWeak();
    forall a, b | a in listed && b in listed && a != b ensures ByAddress()(a, b) || ByAddress()(b, a) {
      StrLessTotal(a.address, b.address);
    }
    Sorting.SortStrict(ByAddress(), listed);
  }

  // ---- the lane ----

  /** The lane a drawing is listed as: none without segments. */
  ghost predicate IsLane(d: Drawing, lane: Option<Lane>) {
    if d.segments == [] then lane.None? else
      lane.Some? && ListsNodes(d.nodes, lane.value.nodes) && lane.value.segments == Deduped(d.segments, |d.segments|)
  }

  lemma {:induction false} WithNodeWellKeyed(nodes: map<string, LaneNode>, address: string, role: string)
    requires WellKeyed(nodes)
    ensures WellKeyed(WithNode(nodes, address, role))
  {
    hide NormalizeAddress, Sorting.Sort;
  }

  lemma {:induction false} DrawnWellKeyed(edges: seq<Push>, k: nat)
    requires k <= |edges|
    ensures WellKeyed(DrawAll(edges, k).nodes)
  {
    if k > 0 {
      hide WithNode, NormalizeAddress, WellKeyed;
      DrawnWellKeyed(edges, k - 1);
      var nodes, p := DrawAll(edges, k - 1).nodes, edges[k - 1];
      WithNodeWellKeyed(nodes, p.from, p.fromRole);
      WithNodeWellKeyed(WithNode(nodes, p.from, p.fromRole), p.to, p.toRole);
    }
  }

  method CollectLane(nodes: map<string, LaneNode>, segments: seq<Segment>) returns (lane: Option<Lane>)
    requires WellKeyed(nodes)
    ensures IsLane(Drawing(nodes, segments), lane)
  {
    var laneSegments := DedupeFundFlowSegments(segments);
    DedupedExact(segments, |segments|);
    if |laneSegments| == 0 {
      return None;
    }
    var laneNodes := NodesByAddress(nodes);
    return Some(Lane(laneNodes, laneSegments));
  }

  // ---- what every lane guarantees ----

  lemma {:induction false} DedupedExact(segments: seq<Segment>, k: nat)
    requires k <= |segments|
    ensures
      var out := Deduped(segments, k);
      && (forall i, j :: 0 <= i < j < |out| ==> SegmentKey(out[i]) != SegmentKey(out[j]))
      && (forall s :: s in out <==> exists i :: 0 <= i < k && segments[i] == s && FirstOfKey(segments, i))
      && (out == [] <==> k == 0)
  {
    hide SegmentKey;
    if k > 0 {
      DedupedExact(segments, k - 1);
      var before, out := Deduped(segments, k - 1), Deduped(segments, k);
      forall i | 0 <= i < |before| && FirstOfKey(segments, k - 1) ensures SegmentKey(before[i]) != SegmentKey(segments[k - 1]) {
        assert before[i] in before;
      }
      if k == 1 {
        assert FirstOfKey(segments, 0);
      }
    }
  }

  lemma {:induction false} KeyIsKept(segments: seq<Segment>, i: nat) returns (j: nat)
    requires i < |segments|
    ensures j <= i && SegmentKey(segments[j]) == SegmentKey(segments[i]) && FirstOfKey(segments, j)
  {
    hide SegmentKey;
    j := i;
    if !FirstOfKey(segments, i) {
      var h :| 0 <= h < i && SegmentKey(segments[h]) == SegmentKey(segments[i]);
      j := KeyIsKept(segments, h);
    }
  }

  ghost predicate EndsDrawn(d: Drawing) {
    forall i :: 0 <= i < |d.segments| ==> d.segments[i].source in d.nodes && d.segments[i].target in d.nodes
  }

  lemma {:induction false} DrawnEnds(edges: seq<Push>, k: nat)
    requires k <= |edges|
    ensures EndsDrawn(DrawAll(edges, k))
  {
    if k > 0 {
      DrawnEnds(edges, k - 1);
    }
  }

  ghost predicate IsNodeID(lane: Lane, id: string) {
    exists n :: n in lane.nodes && n.id == id
  }

  lemma {:induction false} ListedNodes(nodes: map<string, LaneNode>, list: seq<LaneNode>)
    requires WellKeyed(nodes) && ListsNodes(nodes, list)
    ensures forall i, j :: 0 <= i < j < |list| ==> list[i].id != list[j].id && StrLess(list[i].address, list[j].address)
    ensures forall id :: id in nodes ==> nodes[id] in list && nodes[id].id == id
  {
    hide NormalizeAddress, StrLess;
    forall i, j | 0 <= i < j < |list| ensures list[i].id != list[j].id && StrLess(list[i].address, list[j].address) {
      assert list[i] in list && list[j] in list;
      assert ByAddress()(list[i], list[j]);
      StrLessTotal(list[i].address, list[j].address);
    }
  }

  ghost predicate HasKey(lane: Lane, key: string) {
    exists s :: s in lane.segments && SegmentKey(s) == key
  }

  lemma {:induction false} KeyListed(drawn: seq<Segment>, lane: Lane, i: nat)
    requires i < |drawn| && lane.segments == Deduped(drawn, |drawn|)
    ensures HasKey(lane, SegmentKey(drawn[i]))
  {
    hide SegmentKey, FirstOfKey, Deduped;
    DedupedExact(drawn, |drawn|);
    var j := KeyIsKept(drawn, i);
    assert drawn[j] in lane.segments;
  }

  /** A lane is a well-formed graph: node ids and addresses are distinct and nodes are ordered by
      address, both ends of every segment are nodes, no two segments share a key, of the drawn segments
      exactly the first of each key are kept, and no key is lost. */
  ghost predicate WellFormed(drawn: seq<Segment>, lane: Lane) {
    && (forall i, j :: 0 <= i < j < |lane.nodes| ==>
          lane.nodes[i].id != lane.nodes[j].id && StrLess(lane.nodes[i].address, lane.nodes[j].address))
    && (forall i :: 0 <= i < |lane.segments| ==> IsNodeID(lane, lane.segments[i].source) && IsNodeID(lane, lane.segments[i].target))
    && (forall i, j :: 0 <= i < j < |lane.segments| ==> SegmentKey(lane.segments[i]) != SegmentKey(lane.segments[j]))
    && (forall s :: s in lane.segments <==> exists i :: 0 <= i < |drawn| && drawn[i] == s && FirstOfKey(drawn, i))
    && (forall i :: 0 <= i < |drawn| ==> HasKey(lane, SegmentKey(drawn[i])))
    && lane.segments != []
  }

  lemma {:induction false} ListedIsWellFormed(d: Drawing, lane: Lane)
    requires IsLane(d, Some(lane)) && WellKeyed(d.nodes) && EndsDrawn(d)
    ensures WellFormed(d.segments, lane)
  {
    hide SegmentKey, StrLess, FirstOfKey, Deduped, ListsNodes, WellKeyed, HasKey;
    DedupedExact(d.segments, |d.segments|);
    ListedNodes(d.nodes, lane.nodes);
    forall i | 0 <= i < |lane.segments|
      ensures IsNodeID(lane, lane.segments[i].source) && IsNodeID(lane, lane.segments[i].target)
    {
      assert lane.segments[i] in lane.segments;
      var j :| 0 <= j < |d.segments| && d.segments[j] == lane.segments[i] && FirstOfKey(d.segments, j);
    }
    forall i | 0 <= i < |d.segments| ensures HasKey(lane, SegmentKey(d.segments[i])) {
      KeyListed(d.segments, lane, i);
    }
  }

  /** The drawing determines the lane: the order in which the node map is iterated cannot show. */
  lemma {:induction false} LaneIsDetermined(d: Drawing, a: Option<Lane>, b: Option<Lane>)
    requires IsLane(d, a) && IsLane(d, b)
    ensures a == b
  {
    if a.Some? {
      AddressIsStrictWeak();
      Sorting.SameSetSameOrder(ByAddress(), a.value.nodes, b.value.nodes);
    }
  }
}
