/** The execution branches of a fund-flow lane (extractKeyExecutionSegments in
    api/service/fund_flow_graph.go): a bounded depth-first walk from the receiver over flows
    grouped by source. Every visit re-sorts the group of the address it enters, in place, even
    while an outer visit is ranging over that very group. */
module ExecutionWalk {
  import opened Text
  import opened FlowOrder
  import Sorting

  datatype Ends = Ends(receiver: string, borrowSource: string, repaymentTarget: string)

  datatype WalkState = WalkState(adjacency: map<string, seq<Flow>>, seen: set<string>, segments: seq<Flow>)

  function Abs(x: int): nat {
    if x < 0 then -x else x
  }

  /** Flows at or after the pivot first, then the nearest, then by frame id. */
  function ByDistance(pivot: Flow): (Flow, Flow) -> bool {
    (a: Flow, b: Flow) =>
      if (a.order >= pivot.order) != (b.order >= pivot.order) then a.order >= pivot.order
      else if Abs(a.order - pivot.order) != Abs(b.order - pivot.order) then Abs(a.order - pivot.order) < Abs(b.order - pivot.order)
      else StrLess(a.frameID, b.frameID)
  }

  predicate Eligible(f: Flow, startAfter: int) {
    f.order > startAfter && !Contains(Lower(f.action), "approve")
  }

  predicate Terminal(e: Ends, f: Flow) {
    SameAddress(f.target, e.receiver) || SameAddress(f.target, e.repaymentTarget)
  }

  /** The walk never follows a flow back to the borrow source, unless that is the receiver. */
  predicate PaysLender(e: Ends, f: Flow) {
    SameAddress(f.target, e.borrowSource) && !SameAddress(f.target, e.receiver)
  }

  predicate IsSeed(e: Ends, f: Flow) {
    !SameAddress(f.target, e.receiver) && !SameAddress(f.target, e.repaymentTarget) && !SameAddress(f.target, e.borrowSource)
  }

  // ---- the walk as a function of the shared state ----

  function Walk(e: Ends, st: WalkState, flow: Flow, depth: nat): WalkState
    decreases if depth > 3 then 0 else 4 - depth, 1, 0
  {
    if depth > 3 || flow.frameID in st.seen then st else
      var visited := WalkState(st.adjacency, st.seen + {flow.frameID}, st.segments + [flow]);
      var key := NormalizeAddress(flow.target);
      if Terminal(e, flow) || key !in st.adjacency then visited else
        var group := Sorting.Sort(ByDistance(flow), st.adjacency[key]);
        Branch(e, visited.(adjacency := st.adjacency[key := group]), flow, key, |group|, 0, 0, depth)
  }

  /** The loop over the group of `key` from position i on. Its bound n is fixed when it starts; each
      element is read when it is reached, so it is what nested visits have left there. */
  function Branch(e: Ends, st: WalkState, flow: Flow, key: string, n: nat, i: nat, branches: nat, depth: nat): WalkState
    requires depth <= 3
    decreases 4 - depth, 0, if i <= n then n - i else 0
  {
    if i >= n || branches >= 3 || i >= |Group(st.adjacency, key)| then st else
      var candidate := st.adjacency[key][i];
      if candidate.frameID == flow.frameID || PaysLender(e, candidate) then Branch(e, st, flow, key, n, i + 1, branches, depth)
      else Branch(e, Walk(e, st, candidate, depth + 1), flow, key, n, i + 1, branches + 1, depth)
  }

  function Adjacency(flows: seq<Flow>, startAfter: int, k: nat): map<string, seq<Flow>>
    requires k <= |flows|
  {
    if k == 0 then map[] else
      var before, f := Adjacency(flows, startAfter, k - 1), flows[k - 1];
      if !Eligible(f, startAfter) then before
      else
        var key := NormalizeAddress(f.source);
        before[key := (if key in before then before[key] else []) + [f]]
  }

  /** The first four usable flows out of the receiver. */
  function Seeds(e: Ends, group: seq<Flow>, k: nat): (seeds: seq<Flow>)
    requires k <= |group|
    ensures |seeds| <= 4
  {
    if k == 0 then [] else
      var before := Seeds(e, group, k - 1);
      if |before| < 4 && IsSeed(e, group[k - 1]) then before + [group[k - 1]] else before
  }

  function Group(adjacency: map<string, seq<Flow>>, key: string): seq<Flow> {
    if key in adjacency then adjacency[key] else []
  }

  function SeedsOf(e: Ends, adjacency: map<string, seq<Flow>>): seq<Flow> {
    var group := Group(adjacency, NormalizeAddress(e.receiver));
    Seeds(e, group, |group|)
  }

  function WalkSeeds(e: Ends, st: WalkState, seeds: seq<Flow>, k: nat): WalkState
    requires k <= |seeds|
  {
    if k == 0 then st else Walk(e, WalkSeeds(e, st, seeds, k - 1), seeds[k - 1], 0)
  }

  function KeyExecutionSegments(e: Ends, flows: seq<Flow>, startAfter: int): seq<Flow> {
    var adjacency := Adjacency(flows, startAfter, |flows|);
    var seeds := SeedsOf(e, adjacency);
    Sorting.Sort(ByOrder(), WalkSeeds(e, WalkState(adjacency, {}, []), seeds, |seeds|).segments)
  }

  // ---- the walk as the source runs it: groups are arrays, shared and re-sorted in place ----

  class Walker {
    const e: Ends
    var adjacency: map<string, array<Flow>>
    var seen: set<string>
    var segments: seq<Flow>

    constructor (e: Ends)
      ensures this.e == e && adjacency == map[] && seen == {} && segments == []
    {
      this.e := e;
      adjacency, seen, segments := map[], {}, [];
    }

    /** Distinct addresses have distinct backing arrays. */
    ghost predicate Valid()
      reads this
    {
      forall k, l :: k in adjacency && l in adjacency && k != l ==> adjacency[k] != adjacency[l]
    }

    ghost function View(): map<string, seq<Flow>>
      reads this, adjacency.Values
    {
      map k | k in adjacency :: adjacency[k][..]
    }

    ghost function State(): WalkState
      reads this, adjacency.Values
    {
      WalkState(View(), seen, segments)
    }

    /** append to the group of an address; the grown group may live in a new array. */
    method Append(key: string, flow: Flow)
      requires Valid()
      modifies this`adjacency
      ensures Valid() && fresh(adjacency.Values - old(adjacency.Values))
      ensures View() == old(View())[key := Group(old(View()), key) + [flow]]
    {
      ghost var before, was := View(), adjacency;
      var items := if key in adjacency then adjacency[key][..] + [flow] else [flow];
      var grown := new Flow[|items|](i requires 0 <= i < |items| => items[i]);
      assert grown[..] == items == Group(before, key) + [flow];
      adjacency := adjacency[key := grown];
      assert forall a :: a in adjacency.Values ==> a == grown || a in was.Values;
      assert View() == before[key := items];
    }

    method BuildAdjacency(flows: seq<Flow>, startAfter: int)
      requires Valid() && adjacency == map[]
      modifies this`adjacency
      ensures Valid() && fresh(adjacency.Values)
      ensures View() == Adjacency(flows, startAfter, |flows|)
    {
      for k := 0 to |flows|
        invariant Valid() && fresh(adjacency.Values)
        invariant View() == Adjacency(flows, startAfter, k)
      {
        if flows[k].order <= startAfter {
          continue;
        }
        if Contains(Lower(flows[k].action), "approve") {
          continue;
        }
        Append(NormalizeAddress(flows[k].source), flows[k]);
      }
    }

    /** The loop that picks at most four seeds out of the receiver's group. */
    method PickSeeds() returns (seeds: seq<Flow>)
      ensures seeds == SeedsOf(e, View())
    {
      var key := NormalizeAddress(e.receiver);
      seeds := [];
      if key !in adjacency {
        return;
      }
      var group := adjacency[key];
      var i := 0;
      while i < group.Length && |seeds| < 4
        invariant i <= group.Length && seeds == Seeds(e, group[..], i)
      {
        if IsSeed(e, group[i]) {
          seeds := seeds + [group[i]];
        }
        i := i + 1;
      }
      FullSeeds(e, group[..], i);
    }

    /** sort.SliceStable on a group: the array is overwritten where it stands. */
    method SortInPlace(key: string, pivot: Flow)
      requires Valid() && key in adjacency
      modifies adjacency[key]
      ensures View() == old(View())[key := Sorting.Sort(ByDistance(pivot), old(View())[key])]
    {
      ghost var before := View();
      var group := adjacency[key];
      var sorted := Sorting.Sort(ByDistance(pivot), group[..]);
      forall i | 0 <= i < group.Length {
        group[i] := sorted[i];
      }
      assert group[..] == sorted;
      assert forall k :: k in adjacency && k != key ==> adjacency[k][..] == before[k];
    }

    method WalkBranch(flow: Flow, depth: nat)
      requires Valid()
      modifies this`seen, this`segments, adjacency.Values
      ensures State() == Walk(e, old(State()), flow, depth)
      decreases if depth > 3 then 0 else 4 - depth, 1
    {
      if depth > 3 {
        return;
      }
      if flow.frameID in seen {
        return;
      }
      seen := seen + {flow.frameID};
      segments := segments + [flow];
      assert View() == old(View());
      var key := NormalizeAddress(flow.target);
      if Terminal(e, flow) || key !in adjacency {
        return;
      }
      SortInPlace(key, flow);
      RangeGroup(flow, key, depth);
    }

    /** The loop at the end of walkBranch. Its bound is fixed when it starts; its elements are not. */
    method RangeGroup(flow: Flow, key: string, depth: nat)
      requires Valid() && key in adjacency && depth <= 3
      modifies this`seen, this`segments, adjacency.Values
      ensures State() == Branch(e, old(State()), flow, key, adjacency[key].Length, 0, 0, depth)
      decreases 4 - depth, 0
    {
      hide Walk, PaysLender, Terminal;
      ghost var goal := Branch(e, State(), flow, key, adjacency[key].Length, 0, 0, depth);
      var branches, i, group := 0, 0, adjacency[key];
      while i < group.Length && branches < 3
        invariant i <= group.Length && branches <= 3
        invariant Branch(e, State(), flow, key, group.Length, i, branches, depth) == goal
      {
        var candidate := group[i];
        assert candidate == State().adjacency[key][i];
        if candidate.frameID != flow.frameID && !PaysLender(e, candidate) {
          WalkBranch(candidate, depth + 1);
          branches := branches + 1;
        }
        i := i + 1;
      }
    }
  }

  method ExtractKeyExecutionSegments(e: Ends, flows: seq<Flow>, startAfter: int) returns (out: seq<Flow>)
    ensures out == KeyExecutionSegments(e, flows, startAfter)
  {
    hide Walk, SeedsOf, Adjacency;
    var walker := new Walker(e);
    walker.BuildAdjacency(flows, startAfter);
    ghost var adjacency := walker.View();
    var seeds := walker.PickSeeds();
    for k := 0 to |seeds|
      invariant walker.Valid() && fresh(walker.adjacency.Values)
      invariant walker.State() == WalkSeeds(e, WalkState(adjacency, {}, []), seeds, k)
    {
      walker.WalkBranch(seeds[k], 0);
    }
    out := Sorting.Sort(ByOrder(), walker.segments);
  }

  /** Once four seeds are found the rest of the group is not looked at. */
  lemma {:induction false} FullSeeds(e: Ends, group: seq<Flow>, k: nat)
    requires k <= |group| && (k == |group| || |Seeds(e, group, k)| == 4)
    ensures Seeds(e, group, |group|) == Seeds(e, group, k)
    decreases |group| - k
  {
    if k < |group| {
      FullSeeds(e, group, k + 1);
    }
  }

  // ---- what the walk guarantees ----

  /** The flows after the borrow that are no approvals. */
  ghost function EligibleFlows(flows: seq<Flow>, startAfter: int): set<Flow> {
    set f | f in flows && Eligible(f, startAfter)
  }

  /** Those of them the walk may return: they do not pay the borrow source, unless it is the receiver. */
  ghost function Usable(e: Ends, flows: seq<Flow>, startAfter: int): set<Flow> {
    set f | f in flows && Eligible(f, startAfter) && !PaysLender(e, f)
  }

  /** Each group holds eligible flows out of its address. */
  ghost predicate GroupsSound(pool: set<Flow>, adjacency: map<string, seq<Flow>>) {
    forall k, f :: k in adjacency && f in adjacency[k] ==> f in pool && NormalizeAddress(f.source) == k
  }

  /** Flow b goes on from where flow a paid, which is not the end of the chain. */
  predicate Follows(e: Ends, a: Flow, b: Flow) {
    NormalizeAddress(b.source) == NormalizeAddress(a.target) && !Terminal(e, a)
  }

  /** A chain of flows out of the receiver that never continues past the receiver or the repayment target. */
  ghost predicate Path(e: Ends, path: seq<Flow>) {
    && 0 < |path| <= 4
    && NormalizeAddress(path[0].source) == NormalizeAddress(e.receiver)
    && forall i :: 0 <= i < |path| - 1 ==> Follows(e, path[i], path[i + 1])
  }

  ghost predicate Reached(e: Ends, segments: seq<Flow>, f: Flow) {
    exists path :: Path(e, path) && path[|path| - 1] == f && forall p :: p in path ==> p in segments
  }

  ghost predicate DistinctFrames(segments: seq<Flow>) {
    forall i, j :: 0 <= i < j < |segments| ==> segments[i].frameID != segments[j].frameID
  }

  ghost predicate AllReached(e: Ends, usable: set<Flow>, segments: seq<Flow>) {
    forall f :: f in segments ==> f in usable && Reached(e, segments, f)
  }

  ghost predicate SeenMatches(seen: set<string>, segments: seq<Flow>) {
    && (forall f :: f in segments ==> f.frameID in seen)
    && (forall id :: id in seen ==> exists f :: f in segments && f.frameID == id)
  }

  ghost predicate Sound(e: Ends, pool: set<Flow>, usable: set<Flow>, st: WalkState) {
    && GroupsSound(pool, st.adjacency)
    && DistinctFrames(st.segments)
    && SeenMatches(st.seen, st.segments)
    && AllReached(e, usable, st.segments)
  }

  ghost predicate UsableOf(e: Ends, pool: set<Flow>, usable: set<Flow>) {
    forall f :: f in pool && !PaysLender(e, f) ==> f in usable
  }

  lemma {:induction false} ReachedGrows(e: Ends, segments: seq<Flow>, more: seq<Flow>, f: Flow)
    requires Reached(e, segments, f) && forall p :: p in segments ==> p in more
    ensures Reached(e, more, f)
  {
    var path :| Path(e, path) && path[|path| - 1] == f && forall p :: p in path ==> p in segments;
    assert forall p :: p in path ==> p in more;
  }

  lemma {:induction false} ReachedNow(e: Ends, segments: seq<Flow>, flow: Flow, path: seq<Flow>)
    requires Path(e, path + [flow]) && forall p :: p in path ==> p in segments
    ensures Reached(e, segments + [flow], flow)
  {
    var full := path + [flow];
    assert full[|full| - 1] == flow && forall p :: p in full ==> p in segments + [flow];
  }

  lemma {:induction false} AllReachedGrows(e: Ends, usable: set<Flow>, segments: seq<Flow>, flow: Flow, path: seq<Flow>)
    requires AllReached(e, usable, segments) && flow in usable
    requires Path(e, path + [flow]) && forall p :: p in path ==> p in segments
    ensures AllReached(e, usable, segments + [flow])
  {
    ReachedNow(e, segments, flow, path);
    forall f | f in segments ensures f in usable && Reached(e, segments + [flow], f) {
      ReachedGrows(e, segments, segments + [flow], f);
    }
  }

  lemma {:induction false} SeenVisit(seen: set<string>, segments: seq<Flow>, flow: Flow)
    requires SeenMatches(seen, segments) && DistinctFrames(segments) && flow.frameID !in seen
    ensures SeenMatches(seen + {flow.frameID}, segments + [flow]) && DistinctFrames(segments + [flow])
  {
    var next := segments + [flow];
    forall i | 0 <= i < |segments| ensures segments[i].frameID != flow.frameID {
      assert segments[i] in segments;
    }
    forall id | id in seen + {flow.frameID} ensures exists f :: f in next && f.frameID == id {
      if id == flow.frameID {
        assert flow in next;
      } else {
        var f :| f in segments && f.frameID == id;
        assert f in next;
      }
    }
  }

  /** Taking a new flow at the end of a path of returned flows. */
  lemma {:induction false} VisitSound(e: Ends, pool: set<Flow>, usable: set<Flow>, st: WalkState, flow: Flow,
                                      path: seq<Flow>)
    requires Sound(e, pool, usable, st) && flow.frameID !in st.seen && flow in usable
    requires Path(e, path + [flow]) && forall p :: p in path ==> p in st.segments
    ensures Sound(e, pool, usable, WalkState(st.adjacency, st.seen + {flow.frameID}, st.segments + [flow]))
  {
    hide Path, GroupsSound, DistinctFrames, AllReached, SeenMatches;
    AllReachedGrows(e, usable, st.segments, flow, path);
    SeenVisit(st.seen, st.segments, flow);
  }

  lemma {:induction false} SortedGroupSound(pool: set<Flow>, adjacency: map<string, seq<Flow>>, key: string,
                                            less: (Flow, Flow) -> bool)
    requires GroupsSound(pool, adjacency) && key in adjacency
    ensures GroupsSound(pool, adjacency[key := Sorting.Sort(less, adjacency[key])])
  {
    forall f | f in Sorting.Sort(less, adjacency[key]) ensures f in adjacency[key] {
      Sorting.SameElements(Sorting.Sort(less, adjacency[key]), adjacency[key], f);
    }
  }

  ghost predicate Within(path: seq<Flow>, segments: seq<Flow>) {
    forall p :: p in path ==> p in segments
  }

  lemma {:induction false} WithinGrows(path: seq<Flow>, segments: seq<Flow>, more: seq<Flow>)
    requires Within(path, segments) && segments <= more
    ensures Within(path, more)
  {
  }

  /** A candidate taken from the group of the path's end extends the path by one usable flow. */
  lemma {:induction false} CandidateExtends(e: Ends, pool: set<Flow>, usable: set<Flow>,
                                            adjacency: map<string, seq<Flow>>, key: string, i: nat, path: seq<Flow>)
    requires GroupsSound(pool, adjacency) && UsableOf(e, pool, usable)
    requires key in adjacency && i < |adjacency[key]| && !PaysLender(e, adjacency[key][i])
    requires Path(e, path) && key == NormalizeAddress(path[|path| - 1].target) && !Terminal(e, path[|path| - 1])
    ensures adjacency[key][i] in usable
    ensures |path| <= 3 ==> Path(e, path + [adjacency[key][i]])
  {
    hide NormalizeAddress, Terminal, PaysLender;
    assert adjacency[key][i] in adjacency[key];
    var flow := adjacency[key][i];
    assert Follows(e, path[|path| - 1], flow);
    if |path| <= 3 {
      PathGrows(e, path, flow);
    }
  }

  lemma {:induction false} PathGrows(e: Ends, path: seq<Flow>, flow: Flow)
    requires Path(e, path) && |path| <= 3 && Follows(e, path[|path| - 1], flow)
    ensures Path(e, path + [flow])
  {
    hide NormalizeAddress, Follows;
    var more := path + [flow];
    forall i | 0 <= i < |more| - 1 ensures Follows(e, more[i], more[i + 1]) {
      if i < |path| - 1 {
        assert more[i] == path[i] && more[i + 1] == path[i + 1];
      }
    }
  }

  lemma {:induction false} WalkSound(e: Ends, pool: set<Flow>, usable: set<Flow>, st: WalkState, flow: Flow,
                                     depth: nat, path: seq<Flow>)
    requires Sound(e, pool, usable, st) && UsableOf(e, pool, usable) && flow in usable
    requires |path| == depth && (depth <= 3 ==> Path(e, path + [flow])) && Within(path, st.segments)
    ensures Sound(e, pool, usable, Walk(e, st, flow, depth))
    ensures st.segments <= Walk(e, st, flow, depth).segments
    ensures depth <= 3 ==> flow.frameID in Walk(e, st, flow, depth).seen
    decreases if depth > 3 then 0 else 4 - depth, 2, 0
  {
    hide Path, GroupsSound, DistinctFrames, AllReached, UsableOf, SeenMatches;
    if depth <= 3 && flow.frameID !in st.seen {
      VisitSound(e, pool, usable, st, flow, path);
      var visited := WalkState(st.adjacency, st.seen + {flow.frameID}, st.segments + [flow]);
      var key := NormalizeAddress(flow.target);
      if !Terminal(e, flow) && key in st.adjacency {
        SortedGroupSound(pool, st.adjacency, key, ByDistance(flow));
        var group := Sorting.Sort(ByDistance(flow), st.adjacency[key]);
        BranchSound(e, pool, usable, visited.(adjacency := st.adjacency[key := group]), flow, key, |group|, 0, 0, depth, path + [flow]);
      }
    }
  }

  lemma {:induction false} BranchSound(e: Ends, pool: set<Flow>, usable: set<Flow>, st: WalkState, flow: Flow,
                                       key: string, n: nat, i: nat, branches: nat, depth: nat, path: seq<Flow>)
    requires Sound(e, pool, usable, st) && UsableOf(e, pool, usable) && depth <= 3
    requires key == NormalizeAddress(flow.target) && !Terminal(e, flow)
    requires |path| == depth + 1 && Path(e, path) && path[depth] == flow && Within(path, st.segments)
    ensures Sound(e, pool, usable, Branch(e, st, flow, key, n, i, branches, depth))
    ensures st.segments <= Branch(e, st, flow, key, n, i, branches, depth).segments
    ensures flow.frameID in Branch(e, st, flow, key, n, i, branches, depth).seen
    decreases 4 - depth, 1, if i <= n then n - i else 0
  {
    hide Path, GroupsSound, DistinctFrames, AllReached, UsableOf, NormalizeAddress, Terminal, PaysLender, Walk;
    assert path[depth] in path;
    if i < n && branches < 3 && i < |Group(st.adjacency, key)| {
      var candidate := st.adjacency[key][i];
      if candidate.frameID == flow.frameID || PaysLender(e, candidate) {
        BranchSound(e, pool, usable, st, flow, key, n, i + 1, branches, depth, path);
      } else {
        var next := Walk(e, st, candidate, depth + 1);
        BranchStep(e, pool, usable, st, key, i, depth, path);
        BranchSound(e, pool, usable, next, flow, key, n, i + 1, branches + 1, depth, path);
      }
    }
  }

  /** One turn of the loop: the visit of the candidate keeps everything, and the path stays returned. */
  lemma {:induction false} BranchStep(e: Ends, pool: set<Flow>, usable: set<Flow>, st: WalkState, key: string, i: nat,
                                      depth: nat, path: seq<Flow>)
    requires Sound(e, pool, usable, st) && UsableOf(e, pool, usable) && depth <= 3
    requires key in st.adjacency && i < |st.adjacency[key]| && !PaysLender(e, st.adjacency[key][i])
    requires |path| == depth + 1 && Path(e, path) && Within(path, st.segments)
    requires key == NormalizeAddress(path[depth].target) && !Terminal(e, path[depth])
    ensures Sound(e, pool, usable, Walk(e, st, st.adjacency[key][i], depth + 1))
    ensures st.segments <= Walk(e, st, st.adjacency[key][i], depth + 1).segments
    ensures Within(path, Walk(e, st, st.adjacency[key][i], depth + 1).segments)
    decreases 4 - depth, 0, 0
  {
    hide Path, GroupsSound, DistinctFrames, AllReached, UsableOf, SeenMatches, Walk, PaysLender, NormalizeAddress, Terminal;
    CandidateExtends(e, pool, usable, st.adjacency, key, i, path);
    WalkSound(e, pool, usable, st, st.adjacency[key][i], depth + 1, path);
    WithinGrows(path, st.segments, Walk(e, st, st.adjacency[key][i], depth + 1).segments);
  }

  function Budget(depth: nat): nat {
    if depth == 0 then 40 else if depth == 1 then 13 else if depth == 2 then 4 else if depth == 3 then 1 else 0
  }

  /** A visit at a given depth returns at most 40, 13, 4 or 1 new flows. */
  lemma {:induction false} WalkCount(e: Ends, st: WalkState, flow: Flow, depth: nat)
    ensures |Walk(e, st, flow, depth).segments| <= |st.segments| + Budget(depth)
    decreases if depth > 3 then 0 else 4 - depth, 1, 0
  {
    if depth <= 3 && flow.frameID !in st.seen {
      var visited := WalkState(st.adjacency, st.seen + {flow.frameID}, st.segments + [flow]);
      var key := NormalizeAddress(flow.target);
      if !Terminal(e, flow) && key in st.adjacency {
        var group := Sorting.Sort(ByDistance(flow), st.adjacency[key]);
        BranchCount(e, visited.(adjacency := st.adjacency[key := group]), flow, key, |group|, 0, 0, depth);
      }
    }
  }

  lemma {:induction false} BranchCount(e: Ends, st: WalkState, flow: Flow, key: string, n: nat, i: nat, branches: nat,
                                       depth: nat)
    requires depth <= 3 && branches <= 3
    ensures |Branch(e, st, flow, key, n, i, branches, depth).segments| <= |st.segments| + (3 - branches) * Budget(depth + 1)
    decreases 4 - depth, 0, if i <= n then n - i else 0
  {
    hide NormalizeAddress, Terminal, PaysLender, ByDistance, Sorting.Sort, Walk;
    if i < n && branches < 3 && i < |Group(st.adjacency, key)| {
      var candidate := st.adjacency[key][i];
      if candidate.frameID == flow.frameID || PaysLender(e, candidate) {
        BranchCount(e, st, flow, key, n, i + 1, branches, depth);
      } else {
        WalkCount(e, st, candidate, depth + 1);
        BranchCount(e, Walk(e, st, candidate, depth + 1), flow, key, n, i + 1, branches + 1, depth);
      }
    }
  }

  /** Re-sorting never changes which flows a group holds, so a range loop always finds its n elements. */
  lemma {:induction false} WalkPermutes(e: Ends, st: WalkState, flow: Flow, depth: nat, k: string)
    ensures multiset(Group(Walk(e, st, flow, depth).adjacency, k)) == multiset(Group(st.adjacency, k))
    ensures |Group(Walk(e, st, flow, depth).adjacency, k)| == |Group(st.adjacency, k)|
    decreases if depth > 3 then 0 else 4 - depth, 1, 0
  {
    if depth <= 3 && flow.frameID !in st.seen {
      var visited := WalkState(st.adjacency, st.seen + {flow.frameID}, st.segments + [flow]);
      var key := NormalizeAddress(flow.target);
      if !Terminal(e, flow) && key in st.adjacency {
        var group := Sorting.Sort(ByDistance(flow), st.adjacency[key]);
        BranchPermutes(e, visited.(adjacency := st.adjacency[key := group]), flow, key, |group|, 0, 0, depth, k);
      }
    }
  }

  lemma {:induction false} BranchPermutes(e: Ends, st: WalkState, flow: Flow, key: string, n: nat, i: nat,
                                          branches: nat, depth: nat, k: string)
    requires depth <= 3
    ensures multiset(Group(Branch(e, st, flow, key, n, i, branches, depth).adjacency, k)) == multiset(Group(st.adjacency, k))
    ensures |Group(Branch(e, st, flow, key, n, i, branches, depth).adjacency, k)| == |Group(st.adjacency, k)|
    decreases 4 - depth, 0, if i <= n then n - i else 0
  {
    if i < n && branches < 3 && i < |Group(st.adjacency, key)| {
      var candidate := st.adjacency[key][i];
      if candidate.frameID == flow.frameID || PaysLender(e, candidate) {
        BranchPermutes(e, st, flow, key, n, i + 1, branches, depth, k);
      } else {
        WalkPermutes(e, st, candidate, depth + 1, k);
        BranchPermutes(e, Walk(e, st, candidate, depth + 1), flow, key, n, i + 1, branches + 1, depth, k);
      }
    }
  }

  lemma {:induction false} AdjacencySound(flows: seq<Flow>, startAfter: int, k: nat)
    requires k <= |flows|
    ensures GroupsSound(EligibleFlows(flows, startAfter), Adjacency(flows, startAfter, k))
  {
    if k > 0 {
      AdjacencySound(flows, startAfter, k - 1);
      assert flows[k - 1] in flows;
    }
  }

  lemma {:induction false} SeedsSound(e: Ends, group: seq<Flow>, k: nat, f: Flow)
    requires k <= |group| && f in Seeds(e, group, k)
    ensures f in group && IsSeed(e, f)
  {
    if f in Seeds(e, group, k - 1) {
      SeedsSound(e, group, k - 1, f);
    }
  }

  lemma {:induction false} SeedUsable(e: Ends, flows: seq<Flow>, startAfter: int, seed: Flow)
    requires seed in SeedsOf(e, Adjacency(flows, startAfter, |flows|))
    ensures seed in Usable(e, flows, startAfter) && Path(e, [seed])
  {
    AdjacencySound(flows, startAfter, |flows|);
    var group := Group(Adjacency(flows, startAfter, |flows|), NormalizeAddress(e.receiver));
    SeedsSound(e, group, |group|, seed);
  }

  lemma {:induction false} SeedSound(e: Ends, pool: set<Flow>, usable: set<Flow>, st: WalkState, seed: Flow)
    requires Sound(e, pool, usable, st) && UsableOf(e, pool, usable) && seed in usable && Path(e, [seed])
    ensures Sound(e, pool, usable, Walk(e, st, seed, 0))
    ensures |Walk(e, st, seed, 0).segments| <= |st.segments| + 40
    ensures st.seen + {seed.frameID} <= Walk(e, st, seed, 0).seen
  {
    hide Path, GroupsSound, DistinctFrames, AllReached, UsableOf, SeenMatches, Walk;
    assert [] + [seed] == [seed];
    WalkSound(e, pool, usable, st, seed, 0, []);
    WalkCount(e, st, seed, 0);
    SeenGrows(st, Walk(e, st, seed, 0));
  }

  lemma {:induction false} NothingReturned(e: Ends, pool: set<Flow>, usable: set<Flow>, st: WalkState)
    requires GroupsSound(pool, st.adjacency) && st.seen == {} && st.segments == []
    ensures Sound(e, pool, usable, st)
  {
  }

  lemma {:induction false} WalkSeedsSound(e: Ends, pool: set<Flow>, usable: set<Flow>, start: WalkState,
                                          seeds: seq<Flow>, k: nat)
    requires k <= |seeds| && UsableOf(e, pool, usable) && GroupsSound(pool, start.adjacency)
    requires start.seen == {} && start.segments == []
    requires forall s :: s in seeds ==> s in usable && Path(e, [s])
    ensures Sound(e, pool, usable, WalkSeeds(e, start, seeds, k))
    ensures |WalkSeeds(e, start, seeds, k).segments| <= k * 40
    ensures forall i :: 0 <= i < k ==> seeds[i].frameID in WalkSeeds(e, start, seeds, k).seen
  {
    hide Path, Sound, UsableOf, GroupsSound, Walk;
    if k == 0 {
      NothingReturned(e, pool, usable, start);
    } else {
      WalkSeedsSound(e, pool, usable, start, seeds, k - 1);
      assert seeds[k - 1] in seeds;
      SeedSound(e, pool, usable, WalkSeeds(e, start, seeds, k - 1), seeds[k - 1]);
    }
  }

  lemma {:induction false} SeenGrows(a: WalkState, b: WalkState)
    requires SeenMatches(a.seen, a.segments) && SeenMatches(b.seen, b.segments) && a.segments <= b.segments
    ensures a.seen <= b.seen
  {
    forall id | id in a.seen ensures id in b.seen {
      var f :| f in a.segments && f.frameID == id;
      assert f in b.segments;
    }
  }

  /** The execution branches of a lane: distinct frames, at most 160 of them, sorted by order and
      frame id; each is a later, non-approval flow of the trace that does not pay the borrow source
      (unless that is the receiver), and is reached from the receiver over at most four returned
      flows, none but the last ending at the receiver or the repayment target. Every seed is there. */
  lemma {:induction false} SegmentsSafe(e: Ends, flows: seq<Flow>, startAfter: int)
    ensures
      var out := KeyExecutionSegments(e, flows, startAfter);
      && |out| <= 160
      && DistinctFrames(out)
      && Sorting.StrictlySorted(ByOrder(), out)
      && AllReached(e, Usable(e, flows, startAfter), out)
      && forall s :: s in SeedsOf(e, Adjacency(flows, startAfter, |flows|)) ==> exists f :: f in out && f.frameID == s.frameID
  {
    var pool, usable := EligibleFlows(flows, startAfter), Usable(e, flows, startAfter);
    var start := WalkState(Adjacency(flows, startAfter, |flows|), {}, []);
    var seeds := SeedsOf(e, start.adjacency);
    AdjacencySound(flows, startAfter, |flows|);
    forall s | s in seeds ensures s in usable && Path(e, [s]) {
      SeedUsable(e, flows, startAfter, s);
    }
    WalkSeedsSound(e, pool, usable, start, seeds, |seeds|);
    SortedSegments(e, pool, usable, WalkSeeds(e, start, seeds, |seeds|));
  }

  lemma {:induction false} SortedSegments(e: Ends, pool: set<Flow>, usable: set<Flow>, st: WalkState)
    requires Sound(e, pool, usable, st)
    ensures
      var out := Sorting.Sort(ByOrder(), st.segments);
      && DistinctFrames(out) && Sorting.StrictlySorted(ByOrder(), out) && AllReached(e, usable, out)
      && forall id :: id in st.seen ==> exists f :: f in out && f.frameID == id
  {
    var out := Sorting.Sort(ByOrder(), st.segments);
    forall f ensures f in out <==> f in st.segments {
      Sorting.SameElements(out, st.segments, f);
    }
    forall f | f in out ensures f in usable && Reached(e, out, f) {
      ReachedGrows(e, st.segments, out, f);
    }
    PermutedDistinct(st.segments, out);
    OrderIsStrictWeak();
    Sorting.SortSorted(ByOrder(), st.segments);
    forall i, j | 0 <= i < j < |out| ensures ByOrder()(out[i], out[j]) {
      StrLessTotal(out[i].frameID, out[j].frameID);
      assert !ByOrder()(out[j], out[i]);
    }
  }

  lemma {:induction false} PermutedDistinct(a: seq<Flow>, b: seq<Flow>)
    requires DistinctFrames(a) && multiset(a) == multiset(b)
    ensures DistinctFrames(b)
  {
    Sorting.DistinctPermuted(a, b);
    forall i, j | 0 <= i < j < |b| ensures b[i].frameID != b[j].frameID {
      Sorting.SameElements(a, b, b[i]);
      Sorting.SameElements(a, b, b[j]);
    }
  }
}
