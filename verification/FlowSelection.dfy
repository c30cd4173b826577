/** How a fund-flow lane chooses flows (api/service/fund_flow_graph.go): the preferred flow out of
    tiers of candidates, and the key top-up flows. */
module FlowSelection {
  import opened Text
  import opened FlowOrder
  import Sorting

  function Filtered(keep: Flow -> bool, flows: seq<Flow>, k: nat): seq<Flow>
    requires k <= |flows|
  {
    if k == 0 then [] else Filtered(keep, flows, k - 1) + if keep(flows[k - 1]) then [flows[k - 1]] else []
  }

  function Filter(keep: Flow -> bool, flows: seq<Flow>): seq<Flow> {
    Filtered(keep, flows, |flows|)
  }

  method FilterTraceFlows(flows: seq<Flow>, keep: Flow -> bool) returns (out: seq<Flow>)
    ensures out == Filter(keep, flows)
  {
    out := [];
    for k := 0 to |flows|
      invariant out == Filtered(keep, flows, k)
    {
      if keep(flows[k]) {
        out := out + [flows[k]];
      }
    }
  }

  lemma {:induction false} FilteredIn(keep: Flow -> bool, flows: seq<Flow>, k: nat, f: Flow)
    requires k <= |flows|
    ensures f in Filtered(keep, flows, k) <==> f in flows[..k] && keep(f)
  {
    if k > 0 {
      FilteredIn(keep, flows, k - 1, f);
      assert flows[..k] == flows[..k - 1] + [flows[k - 1]];
    }
  }

  lemma {:induction false} FilterIn(keep: Flow -> bool, flows: seq<Flow>, f: Flow)
    ensures f in Filter(keep, flows) <==> f in flows && keep(f)
  {
    FilteredIn(keep, flows, |flows|, f);
    assert flows[..|flows|] == flows;
  }

  // ---- the preferred flow ----

  /** The position of the earliest flow of a group, the first of them on ties. */
  function Earliest(group: seq<Flow>, k: nat): (i: nat)
    requires 0 < k <= |group|
    ensures i < k
    ensures forall j :: 0 <= j < k ==> group[i].order <= group[j].order
    ensures forall j :: 0 <= j < i ==> group[i].order < group[j].order
  {
    if k == 1 then 0 else
      var best := Earliest(group, k - 1);
      if group[k - 1].order < group[best].order then k - 1 else best
  }

  function Preferred(groups: seq<seq<Flow>>): Option<Flow> {
    if groups == [] then None
    else if groups[0] == [] then Preferred(groups[1..])
    else Some(groups[0][Earliest(groups[0], |groups[0]|)])
  }

  method PickPreferredOrderedFlow(groups: seq<seq<Flow>>) returns (best: Option<Flow>)
    ensures best == Preferred(groups)
  {
    for g := 0 to |groups|
      invariant Preferred(groups) == Preferred(groups[g..])
    {
      var group := groups[g];
      assert groups[g..][0] == group && groups[g..][1..] == groups[g + 1..];
      if |group| == 0 {
        continue;
      }
      var choice := group[0];
      for k := 1 to |group|
        invariant choice == group[Earliest(group, k)]
      {
        if group[k].order < choice.order {
          choice := group[k];
        }
      }
      return Some(choice);
    }
    best := None;
  }

  /** Tier t is the first with any flow, its i-th flow is as early as any other of the tier and
      earlier than those listed before it. */
  ghost predicate IsBest(groups: seq<seq<Flow>>, t: nat, i: nat) {
    && t < |groups| && i < |groups[t]|
    && (forall u :: 0 <= u < t ==> groups[u] == [])
    && (forall j :: 0 <= j < |groups[t]| ==> groups[t][i].order <= groups[t][j].order)
    && (forall j :: 0 <= j < i ==> groups[t][i].order < groups[t][j].order)
  }

  /** The choice is the best flow, and there is none exactly when every tier is empty. */
  lemma {:induction false} PreferredExact(groups: seq<seq<Flow>>) returns (t: nat, i: nat)
    ensures Preferred(groups).Some? ==> IsBest(groups, t, i) && Preferred(groups) == Some(groups[t][i])
    ensures Preferred(groups).None? ==> forall g :: 0 <= g < |groups| ==> groups[g] == []
  {
    t, i := 0, 0;
    if groups != [] {
      if groups[0] == [] {
        t, i := PreferredExact(groups[1..]);
        t := t + 1;
        assert forall g :: 0 < g < |groups| ==> groups[g] == groups[1..][g - 1];
      } else {
        i := Earliest(groups[0], |groups[0]|);
      }
    }
  }

  lemma {:induction false} BestIsUnique(groups: seq<seq<Flow>>, t: nat, i: nat, u: nat, j: nat)
    requires IsBest(groups, t, i) && IsBest(groups, u, j)
    ensures t == u && i == j
  {
    if t == u {
      assert groups[t][i].order <= groups[u][j].order <= groups[t][i].order;
    }
  }

  // ---- the key top-up flows ----

  function TopUpKey(f: Flow): string {
    NormalizeAddress(f.source) + "|" + NormalizeAddress(f.asset) + "|" + NormalizeAmount(f.amount)
  }

  /** Flows from the sender first, then flows of exactly the expected amount, then the earliest. */
  function ByTopUpRank(sender: string, expected: string): (Flow, Flow) -> bool {
    (a: Flow, b: Flow) =>
      if SameAddress(a.source, sender) != SameAddress(b.source, sender) then SameAddress(a.source, sender)
      else if (NormalizeAmount(a.amount) == expected) != (NormalizeAmount(b.amount) == expected) then NormalizeAmount(a.amount) == expected
      else a.order < b.order
  }

  lemma {:induction false} TopUpRankIsStrictWeak(sender: string, expected: string)
    ensures Sorting.StrictWeak(ByTopUpRank(sender, expected))
  {
  }

  function KeysOf(flows: seq<Flow>): set<string> {
    set f | f in flows :: TopUpKey(f)
  }

  /** The first three flows of the sorted list with a key not taken before. */
  function Picked(sorted: seq<Flow>, k: nat): (out: seq<Flow>)
    requires k <= |sorted|
    ensures |out| <= 3
  {
    if k == 0 then [] else
      var before := Picked(sorted, k - 1);
      if |before| == 3 || TopUpKey(sorted[k - 1]) in KeysOf(before) then before else before + [sorted[k - 1]]
  }

  function KeyTopUps(flows: seq<Flow>, sender: string, expected: string): seq<Flow> {
    Picked(Sorting.Sort(ByTopUpRank(sender, expected), flows), |flows|)
  }

  method PickKeyTopupFlows(flows: seq<Flow>, sender: string, expected: string) returns (out: seq<Flow>)
    ensures out == KeyTopUps(flows, sender, expected)
  {
    hide ByTopUpRank, TopUpKey, Sorting.Sort;
    var sorted := Sorting.Sort(ByTopUpRank(sender, expected), flows);
    var seen: set<string> := {};
    out := [];
    var k := 0;
    while k < |sorted|
      invariant k <= |sorted| && out == Picked(sorted, k) && seen == KeysOf(out) && |out| < 3
    {
      var key := TopUpKey(sorted[k]);
      if key !in seen {
        KeysGrow(out, sorted[k]);
        seen := seen + {key};
        out := out + [sorted[k]];
        if |out| == 3 {
          FullPick(sorted, k + 1);
          return;
        }
      }
      k := k + 1;
    }
  }

  lemma {:induction false} KeysGrow(flows: seq<Flow>, f: Flow)
    ensures KeysOf(flows + [f]) == KeysOf(flows) + {TopUpKey(f)}
  {
    hide TopUpKey;
    forall key ensures key in KeysOf(flows + [f]) <==> key in KeysOf(flows) + {TopUpKey(f)} {
      if key in KeysOf(flows) {
        var g :| g in flows && TopUpKey(g) == key;
        assert g in flows + [f];
      }
      assert f in flows + [f];
    }
  }

  lemma {:induction false} FullPick(sorted: seq<Flow>, k: nat)
    requires k <= |sorted| && |Picked(sorted, k)| == 3
    ensures Picked(sorted, |sorted|) == Picked(sorted, k)
    decreases |sorted| - k
  {
    if k < |sorted| {
      FullPick(sorted, k + 1);
    }
  }

  ghost predicate DistinctKeys(out: seq<Flow>) {
    forall i, j :: 0 <= i < j < |out| ==> TopUpKey(out[i]) != TopUpKey(out[j])
  }

  /** f is picked, loses to a picked flow with its key that ranks no later, or meets a full pick of
      flows that all rank no later. */
  ghost predicate Accounted(less: (Flow, Flow) -> bool, out: seq<Flow>, f: Flow) {
    || f in out
    || (exists p :: p in out && TopUpKey(p) == TopUpKey(f) && !less(f, p))
    || (|out| == 3 && forall p :: p in out ==> !less(f, p))
  }

  lemma {:induction false} PickedSound(less: (Flow, Flow) -> bool, sorted: seq<Flow>, k: nat)
    requires k <= |sorted| && Sorting.Sorted(less, sorted)
    ensures
      var out := Picked(sorted, k);
      && DistinctKeys(out) && Sorting.Sorted(less, out)
      && (forall p :: p in out ==> p in sorted[..k])
  {
    hide TopUpKey;
    if k > 0 {
      PickedSound(less, sorted, k - 1);
      var before, f := Picked(sorted, k - 1), sorted[k - 1];
      assert sorted[..k] == sorted[..k - 1] + [f];
      NotBefore(less, sorted, k - 1, before);
      forall i | 0 <= i < |before| ensures TopUpKey(before[i]) in KeysOf(before) && before[i] in before {
      }
    }
  }

  lemma {:induction false} NotBefore(less: (Flow, Flow) -> bool, sorted: seq<Flow>, k: nat, before: seq<Flow>)
    requires k < |sorted| && Sorting.Sorted(less, sorted) && forall p :: p in before ==> p in sorted[..k]
    ensures forall p :: p in before ==> !less(sorted[k], p)
  {
    forall p | p in before ensures !less(sorted[k], p) {
      var i :| 0 <= i < |sorted[..k]| && sorted[..k][i] == p;
      assert sorted[i] == p;
    }
  }

  lemma {:induction false} PickedAccounts(less: (Flow, Flow) -> bool, sorted: seq<Flow>, k: nat, i: nat)
    requires i < k <= |sorted| && Sorting.Sorted(less, sorted)
    ensures Accounted(less, Picked(sorted, k), sorted[i])
  {
    hide TopUpKey, Accounted, DistinctKeys, Sorting.Sorted, KeysOf;
    PickedSound(less, sorted, k - 1);
    NotBefore(less, sorted, k - 1, Picked(sorted, k - 1));
    if i < k - 1 {
      PickedAccounts(less, sorted, k - 1, i);
    }
    PickStep(less, Picked(sorted, k - 1), Picked(sorted, k), sorted[k - 1], sorted[i]);
  }

  lemma {:induction false} PickStep(less: (Flow, Flow) -> bool, before: seq<Flow>, out: seq<Flow>, f: Flow, g: Flow)
    requires out == (if |before| == 3 || TopUpKey(f) in KeysOf(before) then before else before + [f])
    requires forall p :: p in before ==> !less(f, p)
    requires |before| <= 3 && (g == f || Accounted(less, before, g))
    ensures Accounted(less, out, g)
  {
  }

  /** Top-up selection is optimal: at most three flows with distinct (source, asset, amount) keys,
      taken in rank order; every candidate left out shares its key with a picked flow that ranks
      no later, or three flows that all rank no later were picked. */
  lemma {:induction false} TopUpsOptimal(flows: seq<Flow>, sender: string, expected: string)
    ensures
      var less, out := ByTopUpRank(sender, expected), KeyTopUps(flows, sender, expected);
      && |out| <= 3 && DistinctKeys(out) && Sorting.Sorted(less, out)
      && (forall p :: p in out ==> p in flows)
      && (forall f :: f in flows ==> Accounted(less, out, f))
  {
    var less := ByTopUpRank(sender, expected);
    var sorted := Sorting.Sort(less, flows);
    TopUpRankIsStrictWeak(sender, expected);
    Sorting.SortSorted(less, flows);
    PickedSound(less, sorted, |sorted|);
    assert sorted[..|sorted|] == sorted;
    forall f ensures f in flows <==> f in sorted {
      Sorting.SameElements(flows, sorted, f);
    }
    forall f | f in flows ensures Accounted(less, KeyTopUps(flows, sender, expected), f) {
      var i :| 0 <= i < |sorted| && sorted[i] == f;
      PickedAccounts(less, sorted, |sorted|, i);
    }
  }
}
