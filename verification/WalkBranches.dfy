/** How many branches a visit of the execution walk follows: as long as nothing leads back to where the
    visit paid, the three flows that come first there are all visited. */
module WalkBranches {
  import opened Text
  import opened FlowOrder
  import opened ExecutionWalk
  import opened WalkProgress
  import Sorting

  /** No walk of n visits from d on enters the address. */
  ghost predicate Avoids(e: Ends, adjacency: map<string, seq<Flow>>, d: Flow, key: string, n: nat)
    decreases n
  {
    n == 0 || EndsThere(e, d)
    || (NormalizeAddress(d.target) != key
        && forall c :: c in Group(adjacency, NormalizeAddress(d.target)) && GoesOn(e, d, c) ==> Avoids(e, adjacency, c, key, n - 1))
  }

  function VisitsLeft(depth: nat): nat {
    if depth > 3 then 0 else 4 - depth
  }

  lemma {:induction false} InGroup(a: map<string, seq<Flow>>, b: map<string, seq<Flow>>, key: string, i: nat)
    requires Permuted(a, b) && i < |Group(a, key)|
    ensures Group(a, key)[i] in Group(b, key)
  {
    assert multiset(Group(a, key)) == multiset(Group(b, key));
    assert Group(a, key)[i] in Group(a, key);
    Sorting.SameElements(Group(a, key), Group(b, key), Group(a, key)[i]);
  }

  /** A walk that avoids an address leaves its group as it is. */
  lemma {:induction false} WalkLeaves(e: Ends, adjacency: map<string, seq<Flow>>, st: WalkState, flow: Flow, depth: nat, key: string)
    requires Permuted(st.adjacency, adjacency) && Avoids(e, adjacency, flow, key, VisitsLeft(depth))
    ensures Group(Walk(e, st, flow, depth).adjacency, key) == Group(st.adjacency, key) && Permuted(Walk(e, st, flow, depth).adjacency, adjacency)
    decreases if depth > 3 then 0 else 4 - depth, 1, 0
  {
    hide Permuted, SameAddress, NormalizeAddress, GoesOn, ByDistance;
    if depth <= 3 && flow.frameID !in st.seen {
      var visited, at := WalkState(st.adjacency, st.seen + {flow.frameID}, st.segments + [flow]), NormalizeAddress(flow.target);
      if !Terminal(e, flow) && at in st.adjacency {
        var group := Sorting.Sort(ByDistance(flow), st.adjacency[at]);
        SortedPermuted(st.adjacency, adjacency, at, group);
        BranchLeaves(e, adjacency, visited.(adjacency := st.adjacency[at := group]), flow, at, |group|, 0, 0, depth, key);
      }
    }
  }

  lemma {:induction false} BranchLeaves(e: Ends, adjacency: map<string, seq<Flow>>, st: WalkState, flow: Flow, at: string, n: nat, i: nat,
                                        branches: nat, depth: nat, key: string)
    requires Permuted(st.adjacency, adjacency) && depth <= 3
    requires forall c :: c in Group(adjacency, at) && GoesOn(e, flow, c) ==> Avoids(e, adjacency, c, key, VisitsLeft(depth + 1))
    ensures Group(Branch(e, st, flow, at, n, i, branches, depth).adjacency, key) == Group(st.adjacency, key)
    ensures Permuted(Branch(e, st, flow, at, n, i, branches, depth).adjacency, adjacency)
    decreases 4 - depth, 0, if i <= n then n - i else 0
  {
    hide Permuted, PaysLender, GoesOn, Walk, Avoids;
    if i < n && branches < 3 && i < |Group(st.adjacency, at)| {
      var candidate := st.adjacency[at][i];
      GoesOnExactly(e, flow, candidate);
      if candidate.frameID == flow.frameID || PaysLender(e, candidate) {
        BranchLeaves(e, adjacency, st, flow, at, n, i + 1, branches, depth, key);
      } else {
        InGroup(st.adjacency, adjacency, at, i);
        WalkLeaves(e, adjacency, st, candidate, depth + 1, key);
        BranchLeaves(e, adjacency, Walk(e, st, candidate, depth + 1), flow, at, n, i + 1, branches + 1, depth, key);
      }
    }
  }

  /** What was visited stays so, and a visit above the last depth is made. */
  lemma {:induction false} WalkSees(e: Ends, st: WalkState, flow: Flow, depth: nat)
    ensures st.seen <= Walk(e, st, flow, depth).seen && (depth <= 3 ==> flow.frameID in Walk(e, st, flow, depth).seen)
    decreases if depth > 3 then 0 else 4 - depth, 1, 0
  {
    hide Terminal, NormalizeAddress, ByDistance;
    if depth <= 3 && flow.frameID !in st.seen {
      var visited, at := WalkState(st.adjacency, st.seen + {flow.frameID}, st.segments + [flow]), NormalizeAddress(flow.target);
      if !Terminal(e, flow) && at in st.adjacency {
        var group := Sorting.Sort(ByDistance(flow), st.adjacency[at]);
        BranchSees(e, visited.(adjacency := st.adjacency[at := group]), flow, at, |group|, 0, 0, depth);
      }
    }
  }

  lemma {:induction false} BranchSees(e: Ends, st: WalkState, flow: Flow, key: string, n: nat, i: nat, branches: nat, depth: nat)
    requires depth <= 3
    ensures st.seen <= Branch(e, st, flow, key, n, i, branches, depth).seen
    decreases 4 - depth, 0, if i <= n then n - i else 0
  {
    hide PaysLender, Walk;
    if i < n && branches < 3 && i < |Group(st.adjacency, key)| {
      var candidate := st.adjacency[key][i];
      if candidate.frameID == flow.frameID || PaysLender(e, candidate) {
        BranchSees(e, st, flow, key, n, i + 1, branches, depth);
      } else {
        WalkSees(e, st, candidate, depth + 1);
        BranchSees(e, Walk(e, st, candidate, depth + 1), flow, key, n, i + 1, branches + 1, depth);
      }
    }
  }

  /** How many of the flows from position i up to m may be visited from f. */
  function UsableBetween(e: Ends, group: seq<Flow>, f: Flow, i: nat, m: nat): nat
    requires i <= m <= |group|
    decreases m - i
  {
    if i == m then 0 else (if GoesOn(e, f, group[i]) then 1 else 0) + UsableBetween(e, group, f, i + 1, m)
  }

  /** The loop visits the flow at position m if it has made fewer than three visits when it gets there. */
  lemma {:induction false} BranchReaches(e: Ends, adjacency: map<string, seq<Flow>>, st: WalkState, flow: Flow, key: string, n: nat, i: nat,
                                         branches: nat, depth: nat, m: nat)
    requires Permuted(st.adjacency, adjacency) && depth < 3 && n == |Group(st.adjacency, key)|
    requires forall c :: c in Group(adjacency, key) && GoesOn(e, flow, c) ==> Avoids(e, adjacency, c, key, VisitsLeft(depth + 1))
    requires i <= m < n && GoesOn(e, flow, Group(st.adjacency, key)[m]) && branches + UsableBetween(e, Group(st.adjacency, key), flow, i, m) < 3
    ensures Group(st.adjacency, key)[m].frameID in Branch(e, st, flow, key, n, i, branches, depth).seen
    decreases n - i
  {
    hide Permuted, PaysLender, GoesOn, Walk, Avoids;
    var candidate := st.adjacency[key][i];
    GoesOnExactly(e, flow, candidate);
    if candidate.frameID == flow.frameID || PaysLender(e, candidate) {
      BranchReaches(e, adjacency, st, flow, key, n, i + 1, branches, depth, m);
    } else {
      var next := Walk(e, st, candidate, depth + 1);
      InGroup(st.adjacency, adjacency, key, i);
      WalkLeaves(e, adjacency, st, candidate, depth + 1, key);
      if i == m {
        WalkSees(e, st, candidate, depth + 1);
        BranchSees(e, next, flow, key, n, i + 1, branches + 1, depth);
      } else {
        BranchReaches(e, adjacency, next, flow, key, n, i + 1, branches + 1, depth, m);
      }
    }
  }

  /** How many flows of a group may be visited from f and come before c. */
  function ComeBefore(e: Ends, group: seq<Flow>, f: Flow, c: Flow): nat {
    if group == [] then 0 else
      ComeBefore(e, group[..|group| - 1], f, c) + if GoesOn(e, f, group[|group| - 1]) && ComesFirst(f, group[|group| - 1], c) then 1 else 0
  }

  lemma {:induction false} BeforeJoins(e: Ends, a: seq<Flow>, b: seq<Flow>, f: Flow, c: Flow)
    ensures ComeBefore(e, a + b, f, c) == ComeBefore(e, a, f, c) + ComeBefore(e, b, f, c)
  {
    hide GoesOn, ComesFirst;
    if b == [] {
      assert a + b == a;
    } else {
      assert (a + b)[..|a + b| - 1] == a + b[..|b| - 1];
      BeforeJoins(e, a, b[..|b| - 1], f, c);
    }
  }

  lemma {:induction false} WithoutOne(t: seq<Flow>, i: nat)
    requires i < |t|
    ensures multiset(t[..i] + t[i + 1..]) == multiset(t) - multiset{t[i]} && t == t[..i] + [t[i]] + t[i + 1..]
  {
    assert t == t[..i] + [t[i]] + t[i + 1..];
  }

  lemma {:induction false} BeforeWithout(e: Ends, t: seq<Flow>, i: nat, f: Flow, c: Flow)
    requires i < |t|
    ensures ComeBefore(e, t, f, c) == ComeBefore(e, t[..i] + t[i + 1..], f, c) + ComeBefore(e, [t[i]], f, c)
  {
    hide ComeBefore;
    WithoutOne(t, i);
    BeforeJoins(e, t[..i], t[i + 1..], f, c);
    BeforeJoins(e, t[..i] + [t[i]], t[i + 1..], f, c);
    BeforeJoins(e, t[..i], [t[i]], f, c);
  }

  lemma {:induction false} BeforePermuted(e: Ends, s: seq<Flow>, t: seq<Flow>, f: Flow, c: Flow)
    requires multiset(s) == multiset(t)
    ensures ComeBefore(e, s, f, c) == ComeBefore(e, t, f, c)
    decreases |s|
  {
    hide ComeBefore;
    if s == [] {
      assert |multiset(t)| == |t|;
    } else {
      Sorting.SameElements(s, t, s[0]);
      var i :| 0 <= i < |t| && t[i] == s[0];
      WithoutOne(s, 0);
      WithoutOne(t, i);
      BeforePermuted(e, s[..0] + s[1..], t[..i] + t[i + 1..], f, c);
      BeforeWithout(e, s, 0, f, c);
      BeforeWithout(e, t, i, f, c);
    }
  }

  lemma {:induction false} UsablesComeBefore(e: Ends, group: seq<Flow>, f: Flow, c: Flow, i: nat, m: nat)
    requires i <= m <= |group| && forall l :: i <= l < m && GoesOn(e, f, group[l]) ==> ComesFirst(f, group[l], c)
    ensures UsableBetween(e, group, f, i, m) <= ComeBefore(e, group[i..], f, c)
    decreases m - i
  {
    hide GoesOn, ComesFirst;
    if i < m {
      UsablesComeBefore(e, group, f, c, i + 1, m);
      assert group[i..] == [group[i]] + group[i + 1..];
      BeforeJoins(e, [group[i]], group[i + 1..], f, c);
      assert [group[i]][..0] == [];
    }
  }

  /** In the sorted group, the first position that holds the frame of c, with only flows before it that come
      before c. */
  lemma {:induction false} PlaceOf(e: Ends, group: seq<Flow>, flow: Flow, c: Flow) returns (m: nat)
    requires Sorting.Sorted(ByDistance(flow), group) && c in group && GoesOn(e, flow, c)
    ensures m < |group| && GoesOn(e, flow, group[m]) && group[m].frameID == c.frameID
    ensures forall l :: 0 <= l < m && GoesOn(e, flow, group[l]) ==> ComesFirst(flow, group[l], c)
  {
    hide ByDistance, GoesOn, ComesFirst;
    var j :| 0 <= j < |group| && group[j] == c;
    m := 0;
    while m < j && !(GoesOn(e, flow, group[m]) && !ComesFirst(flow, group[m], c))
      invariant m <= j && forall l :: 0 <= l < m && GoesOn(e, flow, group[l]) ==> ComesFirst(flow, group[l], c)
      decreases j - m
    {
      m := m + 1;
    }
    if m < j {
      assert !ByDistance(flow)(group[j], group[m]);
      FirstIsLess(flow, c, group[m]);
      FirstIsLess(flow, group[m], c);
    }
  }

  /** A visit above the last depth, where nothing leads back: it goes on with every flow of the group of its
      target that fewer than three others come before. */
  lemma {:induction false} ThreeAreVisited(e: Ends, adjacency: map<string, seq<Flow>>, st: WalkState, flow: Flow, depth: nat, c: Flow)
    requires Permuted(st.adjacency, adjacency) && depth < 3 && flow.frameID !in st.seen && !EndsThere(e, flow)
    requires
      var group := Group(adjacency, NormalizeAddress(flow.target));
      && (forall d :: d in group && GoesOn(e, flow, d) ==> Avoids(e, adjacency, d, NormalizeAddress(flow.target), VisitsLeft(depth + 1)))
      && c in group && GoesOn(e, flow, c) && ComeBefore(e, group, flow, c) < 3
    ensures c.frameID in Walk(e, st, flow, depth).seen
  {
    hide SameAddress, NormalizeAddress, ByDistance, GoesOn, ComesFirst, Permuted, Avoids, Branch;
    var key := NormalizeAddress(flow.target);
    GroupThere(st.adjacency, adjacency, key, c);
    var group := Sorting.Sort(ByDistance(flow), st.adjacency[key]);
    var sorted := WalkState(st.adjacency[key := group], st.seen + {flow.frameID}, st.segments + [flow]);
    SortedPermuted(st.adjacency, adjacency, key, group);
    DistanceIsStrictWeak(flow);
    Sorting.SortSorted(ByDistance(flow), st.adjacency[key]);
    Sorting.SameElements(st.adjacency[key], group, c);
    var m := PlaceOf(e, group, flow, c);
    UsablesComeBefore(e, group, flow, c, 0, m);
    assert group[0..] == group;
    BeforePermuted(e, group, Group(adjacency, key), flow, c);
    BranchReaches(e, adjacency, sorted, flow, key, |group|, 0, 0, depth, m);
  }

  lemma {:induction false} GroupThere(a: map<string, seq<Flow>>, b: map<string, seq<Flow>>, key: string, c: Flow)
    requires Permuted(a, b) && c in Group(b, key)
    ensures key in a && c in a[key] && multiset(a[key]) == multiset(Group(b, key))
  {
    assert multiset(Group(a, key)) == multiset(Group(b, key));
    Sorting.SameElements(Group(a, key), Group(b, key), c);
  }

  /** For the branches of a lane: if nothing leads back to where the first seed paid, each flow out of there
      that fewer than three others come before is among them. */
  lemma {:induction false} FirstSeedBranches(e: Ends, flows: seq<Flow>, startAfter: int, c: Flow)
    requires
      var adjacency, seeds := Adjacency(flows, startAfter, |flows|), SeedsOf(e, Adjacency(flows, startAfter, |flows|));
      && seeds != [] && !EndsThere(e, seeds[0])
      && var group := Group(adjacency, NormalizeAddress(seeds[0].target));
         && (forall d :: d in group && GoesOn(e, seeds[0], d) ==> Avoids(e, adjacency, d, NormalizeAddress(seeds[0].target), 3))
         && c in group && GoesOn(e, seeds[0], c) && ComeBefore(e, group, seeds[0], c) < 3
    ensures exists f :: f in KeyExecutionSegments(e, flows, startAfter) && f.frameID == c.frameID
  {
    hide Adjacency, SeedsOf, NormalizeAddress, Avoids, GoesOn, ComeBefore, EndsThere, SeenMatches, SourcesMatch;
    var adjacency := Adjacency(flows, startAfter, |flows|);
    var seeds, start := SeedsOf(e, adjacency), WalkState(adjacency, {}, []);
    assert Permuted(adjacency, adjacency);
    ThreeAreVisited(e, adjacency, start, seeds[0], 0, c);
    assert WalkSeeds(e, start, seeds, 0) == start;
    LaterSees(e, start, seeds, 1, |seeds|);
    AdjacencySources(flows, startAfter);
    var depths := WalkSeedsAdvance(e, adjacency, seeds, |seeds|);
    var st := WalkSeeds(e, start, seeds, |seeds|);
    FrameVisited(st, c.frameID);
    var f :| f in st.segments && f.frameID == c.frameID;
    Sorting.SameElements(st.segments, KeyExecutionSegments(e, flows, startAfter), f);
  }

  lemma {:induction false} LaterSees(e: Ends, st: WalkState, seeds: seq<Flow>, i: nat, k: nat)
    requires i <= k <= |seeds|
    ensures WalkSeeds(e, st, seeds, i).seen <= WalkSeeds(e, st, seeds, k).seen
  {
    hide Walk;
    if i < k {
      LaterSees(e, st, seeds, i, k - 1);
      WalkSees(e, WalkSeeds(e, st, seeds, k - 1), seeds[k - 1], 0);
    }
  }
}
