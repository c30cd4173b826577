/** What the execution walk follows: every visit above the last depth goes on at once with the nearest
    flow out of where it paid, and with the three nearest as long as nothing leads back there. */
module WalkProgress {
  import opened Text
  import opened FlowOrder
  import opened ExecutionWalk
  import Sorting

  // ---- which flow comes next ----

  /** The visit of f ends there: it pays the receiver or the repayment target. */
  predicate EndsThere(e: Ends, f: Flow) {
    SameAddress(f.target, e.receiver) || SameAddress(f.target, e.repaymentTarget)
  }

  /** c may be visited from f: another frame, and not back to the borrow source unless that is the receiver. */
  predicate GoesOn(e: Ends, f: Flow, c: Flow) {
    c.frameID != f.frameID && (SameAddress(c.target, e.borrowSource) ==> SameAddress(c.target, e.receiver))
  }

  function Distance(a: Flow, f: Flow): nat {
    if a.order >= f.order then a.order - f.order else f.order - a.order
  }

  /** As seen from f: flows at or after it first, then the nearest, then the smallest frame id. */
  predicate ComesFirst(f: Flow, a: Flow, b: Flow) {
    || (a.order >= f.order && b.order < f.order)
    || ((a.order >= f.order <==> b.order >= f.order) && Distance(a, f) < Distance(b, f))
    || ((a.order >= f.order <==> b.order >= f.order) && Distance(a, f) == Distance(b, f) && StrLess(a.frameID, b.frameID))
  }

  /** c is the flow of the group to visit next from f; flows of its frame count as c. */
  ghost predicate IsNext(e: Ends, group: seq<Flow>, f: Flow, c: Flow) {
    && c in group && GoesOn(e, f, c)
    && forall d :: d in group && GoesOn(e, f, d) ==> d.frameID == c.frameID || ComesFirst(f, c, d)
  }

  lemma {:induction false} FirstIsLess(f: Flow, a: Flow, b: Flow)
    ensures ComesFirst(f, a, b) <==> ByDistance(f)(a, b)
    ensures !ComesFirst(f, a, b) && !ComesFirst(f, b, a) ==> a.frameID == b.frameID
  {
    StrLessTotal(a.frameID, b.frameID);
    hide StrLess;
  }

  lemma {:induction false} DistanceIsStrictWeak(f: Flow)
    ensures Sorting.StrictWeak(ByDistance(f))
  {
    forall a: Flow, b: Flow ensures ByDistance(f)(a, b) ==> !ByDistance(f)(b, a) {
      StrLessTotal(a.frameID, b.frameID);
    }
    forall a: Flow, b: Flow, c: Flow | ByDistance(f)(a, c) ensures ByDistance(f)(a, b) || ByDistance(f)(b, c) {
      StrLessTotal(a.frameID, b.frameID);
      StrLessTotal(b.frameID, c.frameID);
      StrLessTotal(a.frameID, c.frameID);
      if StrLess(b.frameID, a.frameID) && StrLess(a.frameID, c.frameID) {
        StrLessTransitive(b.frameID, a.frameID, c.frameID);
      }
      hide StrLess;
    }
  }

  // ---- the visits of a walk, in the order they are made, and their depths ----

  /** Visit i, if it is above the last depth and goes on at all, goes on at once with the next flow, one
      deeper, unless a flow of that frame was visited before. */
  ghost predicate Continues(e: Ends, adjacency: map<string, seq<Flow>>, visits: seq<Flow>, depths: seq<nat>, i: nat)
    requires i < |visits| == |depths|
  {
    depths[i] < 3 && !EndsThere(e, visits[i]) ==>
      forall c :: IsNext(e, Group(adjacency, NormalizeAddress(visits[i].target)), visits[i], c) ==>
        || (exists j :: 0 <= j < i && visits[j].frameID == c.frameID)
        || (i + 1 < |visits| && visits[i + 1].frameID == c.frameID && depths[i + 1] == depths[i] + 1)
  }

  /** The next visit may be made from f. */
  predicate LeadsOn(e: Ends, f: Flow, c: Flow) {
    NormalizeAddress(c.source) == NormalizeAddress(f.target) && GoesOn(e, f, c) && !EndsThere(e, f)
  }

  /** A flow visited at some depth is a seed, at depth 0, or is visited from a flow one less deep. */
  ghost predicate MayVisit(e: Ends, visits: seq<Flow>, depths: seq<nat>, flow: Flow, depth: nat)
    requires |visits| <= |depths|
  {
    depth == 0 || exists j :: 0 <= j < |visits| && depths[j] + 1 == depth && LeadsOn(e, visits[j], flow)
  }

  /** Visit i goes on, and was made from another one or is a seed, at most three flows deep. */
  ghost predicate Sits(e: Ends, adjacency: map<string, seq<Flow>>, visits: seq<Flow>, depths: seq<nat>, i: nat)
    requires i < |visits| == |depths|
  {
    depths[i] <= 3 && MayVisit(e, visits[..i], depths, visits[i], depths[i]) && Continues(e, adjacency, visits, depths, i)
  }

  ghost predicate Permuted(a: map<string, seq<Flow>>, b: map<string, seq<Flow>>) {
    forall k :: multiset(Group(a, k)) == multiset(Group(b, k))
  }

  lemma {:induction false} ContinuesLonger(e: Ends, adjacency: map<string, seq<Flow>>, visits: seq<Flow>, depths: seq<nat>,
                                           more: seq<Flow>, deeper: seq<nat>, i: nat)
    requires i < |visits| == |depths| && |more| == |deeper| && visits <= more && depths <= deeper
    requires Continues(e, adjacency, visits, depths, i)
    ensures Continues(e, adjacency, more, deeper, i)
  {
    hide IsNext, EndsThere, NormalizeAddress;
    assert more[i] == visits[i] && deeper[i] == depths[i];
    assert i + 1 < |visits| ==> more[i + 1] == visits[i + 1] && deeper[i + 1] == depths[i + 1];
    assert forall j :: 0 <= j < i ==> more[j] == visits[j];
  }

  lemma {:induction false} SitsLonger(e: Ends, adjacency: map<string, seq<Flow>>, visits: seq<Flow>, depths: seq<nat>,
                                      more: seq<Flow>, deeper: seq<nat>, i: nat)
    requires i < |visits| == |depths| && |more| == |deeper| && visits <= more && depths <= deeper
    requires Sits(e, adjacency, visits, depths, i)
    ensures Sits(e, adjacency, more, deeper, i)
  {
    ContinuesLonger(e, adjacency, visits, depths, more, deeper, i);
    hide Continues, LeadsOn;
    assert more[..i] == visits[..i] && more[i] == visits[i] && deeper[i] == depths[i];
    assert forall j :: 0 <= j < i ==> deeper[j] == depths[j];
  }

  lemma {:induction false} MayVisitLater(e: Ends, visits: seq<Flow>, depths: seq<nat>, more: seq<Flow>, deeper: seq<nat>, flow: Flow, depth: nat)
    requires |visits| <= |depths| && |more| <= |deeper| && visits <= more && depths <= deeper && MayVisit(e, visits, depths, flow, depth)
    ensures MayVisit(e, more, deeper, flow, depth)
  {
    hide LeadsOn;
    if depth != 0 {
      var j :| 0 <= j < |visits| && depths[j] + 1 == depth && LeadsOn(e, visits[j], flow);
      assert more[j] == visits[j] && deeper[j] == depths[j];
    }
  }

  /** The groups of a state list the flows out of their address. */
  ghost predicate SourcesMatch(adjacency: map<string, seq<Flow>>) {
    forall k, f :: f in Group(adjacency, k) ==> NormalizeAddress(f.source) == k
  }

  /** The state of a walk and the depths of its visits so far. */
  ghost predicate Tracked(adjacency: map<string, seq<Flow>>, st: WalkState, depths: seq<nat>) {
    |depths| == |st.segments| && SeenMatches(st.seen, st.segments) && Permuted(st.adjacency, adjacency) && SourcesMatch(adjacency)
  }

  lemma {:induction false} SourceOf(adjacency: map<string, seq<Flow>>, st: WalkState, key: string, i: nat)
    requires Permuted(st.adjacency, adjacency) && SourcesMatch(adjacency) && i < |Group(st.adjacency, key)|
    ensures NormalizeAddress(Group(st.adjacency, key)[i].source) == key
  {
    hide NormalizeAddress;
    assert multiset(Group(st.adjacency, key)) == multiset(Group(adjacency, key));
    assert Group(st.adjacency, key)[i] in Group(st.adjacency, key);
    Sorting.SameElements(Group(st.adjacency, key), Group(adjacency, key), Group(st.adjacency, key)[i]);
  }

  /** From one state to a later one: the new visits all go on. */
  ghost predicate Advances(e: Ends, adjacency: map<string, seq<Flow>>, st: WalkState, depths: seq<nat>, next: WalkState, more: seq<nat>) {
    && Tracked(adjacency, next, more) && st.segments <= next.segments && depths <= more
    && forall i :: |st.segments| <= i < |next.segments| ==> Sits(e, adjacency, next.segments, more, i)
  }

  lemma {:induction false} AdvancesOn(e: Ends, adjacency: map<string, seq<Flow>>, a: WalkState, x: seq<nat>, b: WalkState, y: seq<nat>,
                                      c: WalkState, z: seq<nat>)
    requires |x| == |a.segments| && Advances(e, adjacency, a, x, b, y) && Advances(e, adjacency, b, y, c, z)
    ensures Advances(e, adjacency, a, x, c, z)
  {
    hide Sits, SeenMatches, Permuted, SourcesMatch;
    forall i | |a.segments| <= i < |c.segments| ensures Sits(e, adjacency, c.segments, z, i) {
      if i < |b.segments| {
        SitsLonger(e, adjacency, b.segments, y, c.segments, z, i);
      }
    }
  }

  /** Position m holds the first flow from position i on that may be visited from f. */
  ghost predicate FirstUsable(e: Ends, group: seq<Flow>, f: Flow, i: nat, m: nat) {
    i <= m < |group| && GoesOn(e, f, group[m]) && forall l :: i <= l < m ==> !GoesOn(e, f, group[l])
  }

  lemma {:induction false} GoesOnExactly(e: Ends, f: Flow, c: Flow)
    ensures GoesOn(e, f, c) <==> !(c.frameID == f.frameID || PaysLender(e, c))
  {
    hide SameAddress;
  }

  /** A visit is recorded with its depth, right away, and everything visited on the way goes on. */
  lemma {:induction false} WalkAdvances(e: Ends, adjacency: map<string, seq<Flow>>, st: WalkState, flow: Flow, depth: nat, depths: seq<nat>)
    returns (more: seq<nat>)
    requires Tracked(adjacency, st, depths) && MayVisit(e, st.segments, depths, flow, depth)
    ensures Advances(e, adjacency, st, depths, Walk(e, st, flow, depth), more)
    ensures
      depth <= 3 && flow.frameID !in st.seen ==>
        var visits, at := Walk(e, st, flow, depth).segments, |st.segments|;
        at < |visits| && visits[at] == flow && more[at] == depth
    ensures depth <= 3 ==> flow.frameID in Walk(e, st, flow, depth).seen
    decreases if depth > 3 then 0 else 4 - depth, 1, 0
  {
    hide Continues, MayVisit, SeenMatches, Permuted, SourcesMatch, NormalizeAddress, SameAddress, ByDistance, TookFirst;
    more := depths;
    if depth <= 3 && flow.frameID !in st.seen {
      var visited, key := WalkState(st.adjacency, st.seen + {flow.frameID}, st.segments + [flow]), NormalizeAddress(flow.target);
      var now := depths + [depth];
      SeenOne(st.seen, st.segments, flow);
      more := now;
      assert visited.segments[..|st.segments|] == st.segments;
      MayVisitLater(e, st.segments, depths, st.segments, now, flow, depth);
      if Terminal(e, flow) || key !in st.adjacency {
        VisitEnds(e, adjacency, st, flow, depth, depths);
      } else {
        var group := Sorting.Sort(ByDistance(flow), st.adjacency[key]);
        var sorted := visited.(adjacency := st.adjacency[key := group]);
        SortedPermuted(st.adjacency, adjacency, key, group);
        assert sorted.segments[|st.segments|] == flow && now[|st.segments|] == depth;
        more := BranchAdvances(e, adjacency, sorted, flow, key, |group|, 0, 0, depth, now);
        var next := Branch(e, sorted, flow, key, |group|, 0, 0, depth);
        VisitGoesOn(e, adjacency, st, flow, depth, depths, next, more);
        assert next.segments[..|st.segments|] == st.segments;
        MayVisitLater(e, st.segments, now, st.segments, more, flow, depth);
        AdvancesFrom(e, adjacency, st, flow, depth, depths, sorted, next, more);
      }
    }
  }

  lemma {:induction false} SeenOne(seen: set<string>, segments: seq<Flow>, flow: Flow)
    requires SeenMatches(seen, segments)
    ensures SeenMatches(seen + {flow.frameID}, segments + [flow])
  {
    forall id | id in seen + {flow.frameID} ensures exists f :: f in segments + [flow] && f.frameID == id {
      if id in seen {
        var f :| f in segments && f.frameID == id;
        assert f in segments + [flow];
      } else {
        assert flow in segments + [flow];
      }
    }
  }

  lemma {:induction false} SortedPermuted(a: map<string, seq<Flow>>, b: map<string, seq<Flow>>, key: string, group: seq<Flow>)
    requires Permuted(a, b) && key in a && multiset(group) == multiset(a[key])
    ensures Permuted(a[key := group], b)
  {
    assert multiset(Group(a, key)) == multiset(Group(b, key));
  }

  /** A visit that does not go on. */
  lemma {:induction false} VisitEnds(e: Ends, adjacency: map<string, seq<Flow>>, st: WalkState, flow: Flow, depth: nat, depths: seq<nat>)
    requires Tracked(adjacency, st, depths) && (Terminal(e, flow) || NormalizeAddress(flow.target) !in st.adjacency)
    ensures Continues(e, adjacency, st.segments + [flow], depths + [depth], |st.segments|)
  {
    hide SameAddress, NormalizeAddress, GoesOn, SeenMatches;
    var key := NormalizeAddress(flow.target);
    if !Terminal(e, flow) {
      assert multiset(Group(adjacency, key)) == multiset(Group(st.adjacency, key)) == multiset{};
      assert |Group(adjacency, key)| == |multiset(Group(adjacency, key))| == 0;
    }
  }

  /** What the loop over the sorted group does for the visit it belongs to. */
  ghost predicate TookFirst(e: Ends, st: WalkState, group: seq<Flow>, flow: Flow, i: nat, depth: nat, next: WalkState, more: seq<nat>) {
    forall m: nat :: FirstUsable(e, group, flow, i, m) && depth < 3 ==>
      || group[m].frameID in st.seen
      || (|st.segments| < |next.segments| == |more| && next.segments[|st.segments|] == group[m] && more[|st.segments|] == depth + 1)
  }

  lemma {:induction false} BranchAdvances(e: Ends, adjacency: map<string, seq<Flow>>, st: WalkState, flow: Flow, key: string, n: nat, i: nat,
                                          branches: nat, depth: nat, depths: seq<nat>) returns (more: seq<nat>)
    requires Tracked(adjacency, st, depths) && depth <= 3
    requires key == NormalizeAddress(flow.target) && !EndsThere(e, flow)
    requires exists j :: 0 <= j < |st.segments| && st.segments[j] == flow && depths[j] == depth
    ensures Advances(e, adjacency, st, depths, Branch(e, st, flow, key, n, i, branches, depth), more)
    ensures branches == 0 && n == |Group(st.adjacency, key)| ==>
              TookFirst(e, st, Group(st.adjacency, key), flow, i, depth, Branch(e, st, flow, key, n, i, branches, depth), more)
    decreases 4 - depth, 0, if i <= n then n - i else 0
  {
    hide Sits, SeenMatches, Permuted, SourcesMatch, PaysLender, GoesOn, Walk, EndsThere, NormalizeAddress;
    more := depths;
    if i < n && branches < 3 && i < |Group(st.adjacency, key)| {
      var candidate := st.adjacency[key][i];
      GoesOnExactly(e, flow, candidate);
      if candidate.frameID == flow.frameID || PaysLender(e, candidate) {
        more := BranchAdvances(e, adjacency, st, flow, key, n, i + 1, branches, depth, depths);
      } else {
        var j :| 0 <= j < |st.segments| && st.segments[j] == flow && depths[j] == depth;
        SourceOf(adjacency, st, key, i);
        assert LeadsOn(e, st.segments[j], candidate);
        var walked := WalkAdvances(e, adjacency, st, candidate, depth + 1, depths);
        var next := Walk(e, st, candidate, depth + 1);
        assert next.segments[j] == flow && walked[j] == depth;
        more := BranchAdvances(e, adjacency, next, flow, key, n, i + 1, branches + 1, depth, walked);
        AdvancesOn(e, adjacency, st, depths, next, walked, Branch(e, next, flow, key, n, i + 1, branches + 1, depth), more);
      }
    }
  }

  /** The visit the loop belongs to goes on with the next flow of its group. */
  lemma {:induction false} VisitGoesOn(e: Ends, adjacency: map<string, seq<Flow>>, st: WalkState, flow: Flow, depth: nat, depths: seq<nat>,
                                       next: WalkState, more: seq<nat>)
    requires Tracked(adjacency, st, depths) && NormalizeAddress(flow.target) in st.adjacency
    requires
      var key := NormalizeAddress(flow.target);
      var group := Sorting.Sort(ByDistance(flow), st.adjacency[key]);
      TookFirst(e, WalkState(st.adjacency[key := group], st.seen + {flow.frameID}, st.segments + [flow]), group, flow, 0, depth, next, more)
    requires |more| == |next.segments| && st.segments + [flow] <= next.segments && depths + [depth] <= more
    ensures Continues(e, adjacency, next.segments, more, |st.segments|)
  {
    hide NormalizeAddress, SameAddress, SeenMatches, GoesOn, EndsThere, ByDistance, ComesFirst;
    var key, at := NormalizeAddress(flow.target), |st.segments|;
    var group := Sorting.Sort(ByDistance(flow), st.adjacency[key]);
    assert next.segments[at] == flow && more[at] == depth;
    if depth < 3 {
      forall c | IsNext(e, Group(adjacency, key), flow, c)
        ensures || (exists j :: 0 <= j < at && next.segments[j].frameID == c.frameID)
                || (at + 1 < |next.segments| && next.segments[at + 1].frameID == c.frameID && more[at + 1] == depth + 1)
      {
        var m := NextIsFirst(e, st.adjacency, adjacency, key, flow, c);
        if group[m].frameID in st.seen {
          SeenBefore(st, next.segments, group[m].frameID);
        } else {
          GoesOnExactly(e, flow, group[m]);
        }
      }
    }
  }

  lemma {:induction false} SeenBefore(st: WalkState, visits: seq<Flow>, id: string)
    requires SeenMatches(st.seen, st.segments) && id in st.seen && st.segments <= visits
    ensures exists j :: 0 <= j < |st.segments| && visits[j].frameID == id
  {
    var f :| f in st.segments && f.frameID == id;
    var j :| 0 <= j < |st.segments| && st.segments[j] == f;
    assert visits[j] == f;
  }

  /** The next flow is of the frame that comes first in the sorted group among those that may be visited. */
  lemma {:induction false} NextIsFirst(e: Ends, groups: map<string, seq<Flow>>, adjacency: map<string, seq<Flow>>, key: string, flow: Flow,
                                       c: Flow) returns (m: nat)
    requires Permuted(groups, adjacency) && key in groups && IsNext(e, Group(adjacency, key), flow, c)
    ensures FirstUsable(e, Sorting.Sort(ByDistance(flow), groups[key]), flow, 0, m)
    ensures Sorting.Sort(ByDistance(flow), groups[key])[m].frameID == c.frameID
  {
    hide ByDistance, GoesOn, ComesFirst;
    var group := Sorting.Sort(ByDistance(flow), groups[key]);
    DistanceIsStrictWeak(flow);
    Sorting.SortSorted(ByDistance(flow), groups[key]);
    assert multiset(Group(groups, key)) == multiset(Group(adjacency, key));
    forall d ensures d in group <==> d in Group(adjacency, key) {
      Sorting.SameElements(group, Group(adjacency, key), d);
    }
    hide Permuted;
    m := FirstInSorted(e, group, flow, c);
  }

  /** In a sorted group the first flow that may be visited is of the frame that comes first. */
  lemma {:induction false} FirstInSorted(e: Ends, group: seq<Flow>, flow: Flow, c: Flow) returns (m: nat)
    requires Sorting.Sorted(ByDistance(flow), group) && IsNext(e, group, flow, c)
    ensures FirstUsable(e, group, flow, 0, m) && group[m].frameID == c.frameID
  {
    hide ByDistance, GoesOn, ComesFirst;
    var j :| 0 <= j < |group| && group[j] == c;
    m := 0;
    while !GoesOn(e, flow, group[m])
      invariant m <= j && forall l :: 0 <= l < m ==> !GoesOn(e, flow, group[l])
      decreases j - m
    {
      m := m + 1;
    }
    assert group[m] in group;
    FirstIsLess(flow, c, group[m]);
    if m < j {
      assert !ByDistance(flow)(group[j], group[m]);
    }
  }

  lemma {:induction false} AdvancesFrom(e: Ends, adjacency: map<string, seq<Flow>>, st: WalkState, flow: Flow, depth: nat, depths: seq<nat>,
                                        sorted: WalkState, next: WalkState, more: seq<nat>)
    requires |depths| == |st.segments| && sorted.segments == st.segments + [flow]
    requires Advances(e, adjacency, sorted, depths + [depth], next, more) && depth <= 3
    requires |st.segments| < |next.segments| == |more| && Continues(e, adjacency, next.segments, more, |st.segments|)
    requires next.segments[..|st.segments|] == st.segments && MayVisit(e, st.segments, more, flow, depth)
    ensures Advances(e, adjacency, st, depths, next, more)
    ensures |st.segments| < |next.segments| && next.segments[|st.segments|] == flow && more[|st.segments|] == depth
    ensures flow.frameID in next.seen
  {
    hide Continues, MayVisit, Permuted, SourcesMatch;
    assert next.segments[|st.segments|] == sorted.segments[|st.segments|] && more[|st.segments|] == (depths + [depth])[|depths|];
    assert flow in next.segments;
  }

  // ---- groups and seeds, said of the flows ----

  /** A flow the walk may use: after the borrow and no approval. */
  predicate MayUse(f: Flow, startAfter: int) {
    f.order > startAfter && !Contains(Lower(f.action), "approve")
  }

  /** The group of an address holds exactly the usable flows out of it. */
  lemma {:induction false} GroupExactly(flows: seq<Flow>, startAfter: int, k: nat, key: string, f: Flow)
    requires k <= |flows|
    ensures f in Group(Adjacency(flows, startAfter, k), key) <==> f in flows[..k] && MayUse(f, startAfter) && NormalizeAddress(f.source) == key
  {
    hide NormalizeAddress, Contains, Lower;
    if k > 0 {
      GroupExactly(flows, startAfter, k - 1, key, f);
      assert flows[..k] == flows[..k - 1] + [flows[k - 1]];
    }
  }

  /** A flow that can start a walk: usable, out of the receiver, and to none of the three ends. */
  predicate CanStart(e: Ends, f: Flow, startAfter: int) {
    && MayUse(f, startAfter) && NormalizeAddress(f.source) == NormalizeAddress(e.receiver)
    && !SameAddress(f.target, e.receiver) && !SameAddress(f.target, e.repaymentTarget) && !SameAddress(f.target, e.borrowSource)
  }

  function StartsUpTo(e: Ends, flows: seq<Flow>, startAfter: int, k: nat): seq<Flow>
    requires k <= |flows|
  {
    if k == 0 then [] else
      StartsUpTo(e, flows, startAfter, k - 1) + if CanStart(e, flows[k - 1], startAfter) then [flows[k - 1]] else []
  }

  function FirstFour(s: seq<Flow>): seq<Flow> {
    if |s| > 4 then s[..4] else s
  }

  function Usables(e: Ends, group: seq<Flow>): seq<Flow> {
    if group == [] then [] else Usables(e, group[..|group| - 1]) + if IsSeed(e, group[|group| - 1]) then [group[|group| - 1]] else []
  }

  lemma {:induction false} SeedsAreFirst(e: Ends, group: seq<Flow>, k: nat)
    requires k <= |group|
    ensures Seeds(e, group, k) == FirstFour(Usables(e, group[..k]))
  {
    hide IsSeed;
    if k > 0 {
      SeedsAreFirst(e, group, k - 1);
      assert group[..k][..k - 1] == group[..k - 1];
    }
  }

  lemma {:induction false} GroupOneMore(flows: seq<Flow>, startAfter: int, k: nat, key: string)
    requires 0 < k <= |flows|
    ensures
      var f := flows[k - 1];
      Group(Adjacency(flows, startAfter, k), key)
      == if MayUse(f, startAfter) && NormalizeAddress(f.source) == key then Group(Adjacency(flows, startAfter, k - 1), key) + [f]
         else Group(Adjacency(flows, startAfter, k - 1), key)
  {
    hide NormalizeAddress, Contains, Lower;
  }

  lemma {:induction false} UsablesOneMore(e: Ends, group: seq<Flow>, f: Flow)
    ensures Usables(e, group + [f]) == Usables(e, group) + if IsSeed(e, f) then [f] else []
  {
    hide IsSeed;
    assert (group + [f])[..|group|] == group;
  }

  lemma {:induction false} UsablesAre(e: Ends, flows: seq<Flow>, startAfter: int, k: nat)
    requires k <= |flows|
    ensures Usables(e, Group(Adjacency(flows, startAfter, k), NormalizeAddress(e.receiver))) == StartsUpTo(e, flows, startAfter, k)
  {
    hide NormalizeAddress, MayUse, SameAddress, Adjacency, Group, Usables;
    if k > 0 {
      UsablesAre(e, flows, startAfter, k - 1);
      GroupOneMore(flows, startAfter, k, NormalizeAddress(e.receiver));
      UsablesOneMore(e, Group(Adjacency(flows, startAfter, k - 1), NormalizeAddress(e.receiver)), flows[k - 1]);
    } else {
      NoUsables(e, flows, startAfter);
    }
  }

  lemma {:induction false} NoUsables(e: Ends, flows: seq<Flow>, startAfter: int)
    ensures Usables(e, Group(Adjacency(flows, startAfter, 0), NormalizeAddress(e.receiver))) == []
  {
  }

  /** The seeds of the walk are the first four flows, in order, that can start one. */
  lemma {:induction false} SeedsExactly(e: Ends, flows: seq<Flow>, startAfter: int)
    ensures SeedsOf(e, Adjacency(flows, startAfter, |flows|)) == FirstFour(StartsUpTo(e, flows, startAfter, |flows|))
  {
    var group := Group(Adjacency(flows, startAfter, |flows|), NormalizeAddress(e.receiver));
    hide NormalizeAddress;
    SeedsAreFirst(e, group, |group|);
    assert group[..|group|] == group;
    UsablesAre(e, flows, startAfter, |flows|);
  }

  // ---- the whole walk ----

  lemma {:induction false} WalkSeedsAdvance(e: Ends, adjacency: map<string, seq<Flow>>, seeds: seq<Flow>, k: nat) returns (depths: seq<nat>)
    requires k <= |seeds| && SourcesMatch(adjacency)
    ensures
      var start := WalkState(adjacency, {}, []);
      var st := WalkSeeds(e, start, seeds, k);
      && Advances(e, adjacency, start, [], st, depths)
      && (k > 0 ==> |st.segments| > 0 && st.segments[0] == seeds[0] && depths[0] == 0)
      && (forall s :: 0 <= s < k ==> seeds[s].frameID in st.seen)
  {
    hide Walk, Sits, SourcesMatch;
    var start := WalkState(adjacency, {}, []);
    depths := [];
    if k > 0 {
      depths := WalkSeedsAdvance(e, adjacency, seeds, k - 1);
      var before := WalkSeeds(e, start, seeds, k - 1);
      var more := WalkAdvances(e, adjacency, before, seeds[k - 1], 0, depths);
      var after := Walk(e, before, seeds[k - 1], 0);
      AdvancesOn(e, adjacency, start, [], before, depths, after, more);
      SeenGrows(before, after);
      depths := more;
    }
  }

  /** c is the flow to go on with from f, among the flows of the trace. */
  ghost predicate IsNextOf(e: Ends, flows: seq<Flow>, startAfter: int, f: Flow, c: Flow) {
    && Leads(e, flows, startAfter, f, c)
    && forall d :: Leads(e, flows, startAfter, f, d) ==> d.frameID == c.frameID || ComesFirst(f, c, d)
  }

  /** c is a usable flow out of where f paid, and may be visited from there. */
  ghost predicate Leads(e: Ends, flows: seq<Flow>, startAfter: int, f: Flow, c: Flow) {
    c in flows && MayUse(c, startAfter) && NormalizeAddress(c.source) == NormalizeAddress(f.target) && GoesOn(e, f, c)
  }

  lemma {:induction false} NextOfGroup(e: Ends, flows: seq<Flow>, startAfter: int, f: Flow, c: Flow)
    requires IsNextOf(e, flows, startAfter, f, c)
    ensures IsNext(e, Group(Adjacency(flows, startAfter, |flows|), NormalizeAddress(f.target)), f, c)
  {
    hide NormalizeAddress, MayUse, GoesOn, ComesFirst, Adjacency;
    var group := Group(Adjacency(flows, startAfter, |flows|), NormalizeAddress(f.target));
    assert flows[..|flows|] == flows;
    forall d ensures d in group <==> d in flows && MayUse(d, startAfter) && NormalizeAddress(d.source) == NormalizeAddress(f.target) {
      GroupExactly(flows, startAfter, |flows|, NormalizeAddress(f.target), d);
    }
  }

  /** Visit i goes on with the flow of the trace that comes first, one deeper, unless it ends, is at the
      last depth, or a flow of that frame was visited before. */
  ghost predicate Onward(e: Ends, flows: seq<Flow>, startAfter: int, visits: seq<Flow>, depths: seq<nat>, i: nat)
    requires i < |visits| == |depths|
  {
    depths[i] < 3 && !EndsThere(e, visits[i]) ==>
      forall c :: IsNextOf(e, flows, startAfter, visits[i], c) ==>
        || (exists j :: 0 <= j < i && visits[j].frameID == c.frameID)
        || (i + 1 < |visits| && visits[i + 1].frameID == c.frameID && depths[i + 1] == depths[i] + 1)
  }

  /** The execution branches of a lane are the visits of a walk that starts with the seeds, the first flows
      that can start one, each visited unless its frame was already. Every visit above depth 3 that does not end at
      the receiver or the repayment target goes on at once with the flow that comes first, one deeper,
      unless a flow of that frame was visited before; and what is not a seed was visited from such a flow. */
  lemma {:induction false} SegmentsGoOn(e: Ends, flows: seq<Flow>, startAfter: int) returns (visits: seq<Flow>, depths: seq<nat>)
    ensures multiset(visits) == multiset(KeyExecutionSegments(e, flows, startAfter)) && |visits| == |depths|
    ensures
      var seeds := FirstFour(StartsUpTo(e, flows, startAfter, |flows|));
      && (seeds != [] ==> visits != [] && visits[0] == seeds[0] && depths[0] == 0)
      && (forall s :: 0 <= s < |seeds| ==> exists f :: f in visits && f.frameID == seeds[s].frameID)
    ensures forall i :: 0 <= i < |visits| ==>
              depths[i] <= 3 && MayVisit(e, visits[..i], depths, visits[i], depths[i]) && Onward(e, flows, startAfter, visits, depths, i)
  {
    hide Onward, MayVisit, SourcesMatch, Adjacency, FirstFour, StartsUpTo, SeedsOf, SeenMatches, Permuted, EndsThere, IsNextOf;
    var adjacency := Adjacency(flows, startAfter, |flows|);
    var seeds := SeedsOf(e, adjacency);
    SeedsExactly(e, flows, startAfter);
    AdjacencySources(flows, startAfter);
    depths := WalkSeedsAdvance(e, adjacency, seeds, |seeds|);
    var st := WalkSeeds(e, WalkState(adjacency, {}, []), seeds, |seeds|);
    visits := st.segments;
    forall s | 0 <= s < |seeds| ensures exists f :: f in visits && f.frameID == seeds[s].frameID {
      FrameVisited(st, seeds[s].frameID);
    }
    forall i | 0 <= i < |visits|
      ensures depths[i] <= 3 && MayVisit(e, visits[..i], depths, visits[i], depths[i]) && Onward(e, flows, startAfter, visits, depths, i)
    {
      assert Sits(e, adjacency, visits, depths, i) && Continues(e, adjacency, visits, depths, i);
      ContinuesOnward(e, flows, startAfter, visits, depths, i);
    }
  }

  lemma {:induction false} AdjacencySources(flows: seq<Flow>, startAfter: int)
    ensures SourcesMatch(Adjacency(flows, startAfter, |flows|))
  {
    hide NormalizeAddress, Adjacency, MayUse;
    forall k, f | f in Group(Adjacency(flows, startAfter, |flows|), k) ensures NormalizeAddress(f.source) == k {
      GroupExactly(flows, startAfter, |flows|, k, f);
    }
  }

  lemma {:induction false} ContinuesOnward(e: Ends, flows: seq<Flow>, startAfter: int, visits: seq<Flow>, depths: seq<nat>, i: nat)
    requires i < |visits| == |depths| && Continues(e, Adjacency(flows, startAfter, |flows|), visits, depths, i)
    ensures Onward(e, flows, startAfter, visits, depths, i)
  {
    hide IsNextOf, IsNext, Adjacency, EndsThere, NormalizeAddress;
    forall c | IsNextOf(e, flows, startAfter, visits[i], c)
      ensures IsNext(e, Group(Adjacency(flows, startAfter, |flows|), NormalizeAddress(visits[i].target)), visits[i], c)
    {
      NextOfGroup(e, flows, startAfter, visits[i], c);
    }
  }

  lemma {:induction false} FrameVisited(st: WalkState, id: string)
    requires SeenMatches(st.seen, st.segments) && id in st.seen
    ensures exists f :: f in st.segments && f.frameID == id
  {
  }
}
