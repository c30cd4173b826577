/** The invocation view of the transaction page (frontend/src/pages/TransactionDetail.tsx): a flat
    frame list, in any order, is grouped by parent id and rebuilt into trees, pruned to the
    important frames unless the raw view is asked for. */
module FrameForest {
  import opened Text
  import opened TokenCalls
  import Sorting

  datatype FrameDTO = FrameDTO(
    id: string, parentID: string, depth: nat, callIndex: nat, kind: string, from: string, to: string,
    error: string, revertReason: string, token: TokenAction, tags: seq<string>)

  datatype Node = Node(frame: FrameDTO, children: seq<Node>)

  const ROOT_KEY := "__root__"

  predicate Important(f: FrameDTO) {
    || f.depth <= 1
    || f.token != NoAction
    || f.error != "" || f.revertReason != ""
    || "callback_path" in f.tags
    || "repayment_path" in f.tags
    || Contains(Lower(f.kind), "event")
  }

  /** What is shown for its own sake: the root and its calls, token calls, failures, frames on a callback or repayment
      path, and events; everything else only for what is below it. */
  lemma {:induction false} ImportantExactly(f: FrameDTO)
    ensures
      Important(f) <==>
        !(f.depth >= 2 && f.token.NoAction? && f.error == "" && f.revertReason == ""
          && (forall tag :: tag in f.tags ==> tag != "callback_path" && tag != "repayment_path") && !Contains(Lower(f.kind), "event"))
  {
    hide Contains, Lower;
  }

  function ByCallIndex(): (FrameDTO, FrameDTO) -> bool {
    (l: FrameDTO, r: FrameDTO) => if l.callIndex != r.callIndex then l.callIndex < r.callIndex else l.depth < r.depth
  }

  function IDSet(frames: seq<FrameDTO>): set<string> {
    set f | f in frames :: f.id
  }

  function ParentKey(f: FrameDTO, ids: set<string>): string {
    if f.parentID != "" && f.parentID in ids then f.parentID else ROOT_KEY
  }

  function KeysOf(frames: seq<FrameDTO>): seq<string> {
    seq(|frames|, i requires 0 <= i < |frames| => ParentKey(frames[i], IDSet(frames)))
  }

  /** The frames among the first k whose parent key is `key`, in order. */
  function Children(frames: seq<FrameDTO>, keys: seq<string>, key: string, k: nat): seq<FrameDTO>
    requires k <= |frames| == |keys|
  {
    if k == 0 then [] else
      Children(frames, keys, key, k - 1) + if keys[k - 1] == key then [frames[k - 1]] else []
  }

  function Lookup(groups: map<string, seq<FrameDTO>>, key: string): seq<FrameDTO> {
    if key in groups then groups[key] else []
  }

  ghost predicate Groups(groups: map<string, seq<FrameDTO>>, frames: seq<FrameDTO>, k: nat)
    requires k <= |frames|
  {
    forall key :: Lookup(groups, key) == Children(frames, KeysOf(frames), key, k)
  }

  /** The groups of the first k frames. */
  function GroupMap(frames: seq<FrameDTO>, k: nat): map<string, seq<FrameDTO>>
    requires k <= |frames|
  {
    if k == 0 then map[] else
      var before, key := GroupMap(frames, k - 1), ParentKey(frames[k - 1], IDSet(frames));
      before[key := Lookup(before, key) + [frames[k - 1]]]
  }

  method GroupByParent(frames: seq<FrameDTO>) returns (groups: map<string, seq<FrameDTO>>)
    ensures groups == GroupMap(frames, |frames|)
  {
    var ids := IDSet(frames);
    groups := map[];
    for k := 0 to |frames|
      invariant groups == GroupMap(frames, k)
    {
      var key := ParentKey(frames[k], ids);
      var siblings := Lookup(groups, key);
      groups := groups[key := siblings + [frames[k]]];
    }
  }

  /** The group of a key lists the frames with that parent key, in list order. */
  lemma {:induction false} GroupsListChildren(frames: seq<FrameDTO>, k: nat)
    requires k <= |frames|
    ensures Groups(GroupMap(frames, k), frames, k)
  {
    if k > 0 {
      hide ParentKey, IDSet;
      GroupsListChildren(frames, k - 1);
      var keys, before := KeysOf(frames), GroupMap(frames, k - 1);
      assert keys[k - 1] == ParentKey(frames[k - 1], IDSet(frames));
      forall key ensures Lookup(GroupMap(frames, k), key) == Children(frames, keys, key, k) {
        assert Lookup(before, key) == Children(frames, keys, key, k - 1);
      }
    }
  }

  lemma {:induction false} ChildrenAreListed(frames: seq<FrameDTO>, keys: seq<string>, key: string, k: nat, c: FrameDTO)
    returns (j: nat)
    requires k <= |frames| == |keys| && c in Children(frames, keys, key, k)
    ensures j < k && frames[j] == c && keys[j] == key
  {
    if c in Children(frames, keys, key, k - 1) {
      j := ChildrenAreListed(frames, keys, key, k - 1, c);
    } else {
      j := k - 1;
    }
  }

  // ---- rebuilding ----

  /** A chain of frames from a root, each in the group of the one before. */
  ghost predicate IsChain(groups: map<string, seq<FrameDTO>>, chain: seq<FrameDTO>) {
    && chain != [] && chain[0] in Lookup(groups, ROOT_KEY)
    && forall i :: 0 <= i < |chain| - 1 ==> chain[i + 1] in Lookup(groups, chain[i].id)
  }

  /** The recursion of buildNode ends: no chain is longer than the limit. */
  ghost predicate Bounded(groups: map<string, seq<FrameDTO>>, limit: nat) {
    forall chain :: IsChain(groups, chain) ==> |chain| <= limit
  }

  lemma {:induction false} ChainGrows(groups: map<string, seq<FrameDTO>>, above: seq<FrameDTO>, f: FrameDTO, c: FrameDTO)
    requires IsChain(groups, above + [f]) && c in Lookup(groups, f.id)
    ensures IsChain(groups, above + [f] + [c])
  {
    var chain, more := above + [f], above + [f] + [c];
    forall i | 0 <= i < |more| - 1 ensures more[i + 1] in Lookup(groups, more[i].id) {
      if i < |chain| - 1 {
        assert more[i] == chain[i] && more[i + 1] == chain[i + 1];
      }
    }
  }

  /** The node of frame f, reached over the frames above it. */
  function BuildNode(groups: map<string, seq<FrameDTO>>, ghost limit: nat, ghost above: seq<FrameDTO>, f: FrameDTO, raw: bool): Option<Node>
    requires Bounded(groups, limit) && IsChain(groups, above + [f])
    decreases limit - |above|, 0, 0
  {
    assert |above + [f]| <= limit;
    var kids := BuildNodes(groups, limit, above + [f], BelowChain(groups, above, f), raw);
    if !raw && !Important(f) && |kids| == 0 then None else Some(Node(f, kids))
  }

  function BelowChain(groups: map<string, seq<FrameDTO>>, ghost above: seq<FrameDTO>, f: FrameDTO): (list: seq<FrameDTO>)
    requires IsChain(groups, above + [f])
    ensures list == Lookup(groups, f.id) && forall c :: c in list ==> IsChain(groups, above + [f] + [c])
  {
    assert forall c :: c in Lookup(groups, f.id) ==> IsChain(groups, above + [f] + [c]) by {
      forall c | c in Lookup(groups, f.id) ensures IsChain(groups, above + [f] + [c]) {
        ChainGrows(groups, above, f, c);
      }
    }
    Lookup(groups, f.id)
  }

  function BuildNodes(groups: map<string, seq<FrameDTO>>, ghost limit: nat, ghost above: seq<FrameDTO>, list: seq<FrameDTO>, raw: bool): seq<Node>
    requires Bounded(groups, limit) && |above| <= limit && forall c :: c in list ==> IsChain(groups, above + [c])
    decreases limit - |above|, 1, |list|
  {
    if list == [] then [] else
      assert list[0] in list;
      var head := BuildNode(groups, limit, above, list[0], raw);
      (if head.Some? then [head.value] else []) + BuildNodes(groups, limit, above, list[1..], raw)
  }

  function SortedGroups(frames: seq<FrameDTO>): map<string, seq<FrameDTO>> {
    var sorted := Sorting.Sort(ByCallIndex(), frames);
    GroupMap(sorted, |sorted|)
  }

  /** Exactly on these lists the source's recursion ends. */
  ghost predicate Rebuildable(frames: seq<FrameDTO>) {
    exists limit :: Bounded(SortedGroups(frames), limit)
  }

  ghost function LimitOf(frames: seq<FrameDTO>): (limit: nat)
    requires Rebuildable(frames)
    ensures Bounded(SortedGroups(frames), limit)
  {
    var limit: nat :| Bounded(SortedGroups(frames), limit);
    limit
  }

  function RootChains(groups: map<string, seq<FrameDTO>>): (list: seq<FrameDTO>)
    ensures list == Lookup(groups, ROOT_KEY) && forall c :: c in list ==> IsChain(groups, [] + [c])
  {
    assert forall c :: c in Lookup(groups, ROOT_KEY) ==> [] + [c] == [c];
    Lookup(groups, ROOT_KEY)
  }

  /** The trees shown for a list of frames. */
  function Forest(frames: seq<FrameDTO>, raw: bool): seq<Node>
    requires Rebuildable(frames)
  {
    var groups := SortedGroups(frames);
    BuildNodes(groups, LimitOf(frames), [], RootChains(groups), raw)
  }

  method BuildInvocationNodes(frames: seq<FrameDTO>, raw: bool) returns (nodes: seq<Node>)
    requires Rebuildable(frames)
    ensures nodes == Forest(frames, raw)
  {
    if |frames| == 0 {
      NothingListed(raw);
      return [];
    }
    var sorted := Sorting.Sort(ByCallIndex(), frames);
    var groups := GroupByParent(sorted);
    nodes := BuildNodes(groups, LimitOf(frames), [], RootChains(groups), raw);
  }

  lemma {:induction false} NothingListed(raw: bool)
    requires Rebuildable([])
    ensures Forest([], raw) == []
  {
    assert SortedGroups([]) == map[];
  }

  // ---- which lists can be rebuilt ----

  /** The chain meets a frame again. */
  ghost predicate Repeats(chain: seq<FrameDTO>) {
    exists i, j :: 0 <= i < j < |chain| && chain[i] == chain[j]
  }

  lemma {:induction false} InGroup(frames: seq<FrameDTO>, key: string, c: FrameDTO)
    requires c in Lookup(GroupMap(frames, |frames|), key)
    ensures c in frames && ParentKey(c, IDSet(frames)) == key
  {
    hide ParentKey, IDSet, GroupMap;
    GroupsListChildren(frames, |frames|);
    var j := ChildrenAreListed(frames, KeysOf(frames), key, |frames|, c);
  }

  function KeyAbove(chain: seq<FrameDTO>, i: nat): string
    requires i < |chain|
  {
    if i == 0 then ROOT_KEY else chain[i - 1].id
  }

  lemma {:induction false} ChainIsListed(frames: seq<FrameDTO>, chain: seq<FrameDTO>)
    requires IsChain(GroupMap(frames, |frames|), chain)
    ensures forall i :: 0 <= i < |chain| ==> chain[i] in frames && ParentKey(chain[i], IDSet(frames)) == KeyAbove(chain, i)
  {
    hide ParentKey, IDSet, GroupMap, Lookup, Groups;
    forall i | 0 <= i < |chain| ensures chain[i] in frames && ParentKey(chain[i], IDSet(frames)) == KeyAbove(chain, i) {
      assert i > 0 ==> chain[i - 1 + 1] in Lookup(GroupMap(frames, |frames|), chain[i - 1].id);
      InGroup(frames, KeyAbove(chain, i), chain[i]);
    }
  }

  /** A list of distinct members of another is no longer than it. */
  lemma {:induction false} NoLonger<T>(some: seq<T>, all: seq<T>)
    requires forall i, j :: 0 <= i < j < |some| ==> some[i] != some[j]
    requires forall x :: x in some ==> x in all
    ensures |some| <= |all|
  {
    forall x: T ensures multiset(some)[x] <= multiset(all)[x] {
      Sorting.OnceOnly(some, x);
      if x in multiset(some) {
        assert x in some && x in all;
      }
    }
    assert multiset(some) <= multiset(all);
    assert |multiset(all)| == |multiset(some)| + |multiset(all) - multiset(some)| by {
      assert multiset(all) == multiset(some) + (multiset(all) - multiset(some));
    }
    assert |multiset(some)| == |some| && |multiset(all)| == |all|;
  }

  lemma {:induction false} ChainPrefix(groups: map<string, seq<FrameDTO>>, chain: seq<FrameDTO>, n: nat)
    requires IsChain(groups, chain) && 0 < n <= |chain|
    ensures IsChain(groups, chain[..n])
  {
    forall i | 0 <= i < n - 1 ensures chain[..n][i + 1] in Lookup(groups, chain[..n][i].id) {
      assert chain[i + 1] in Lookup(groups, chain[i].id);
    }
  }

  /** Going round from a frame back to it, any number of times. */
  lemma {:induction false} GoRound(groups: map<string, seq<FrameDTO>>, chain: seq<FrameDTO>, i: nat, j: nat, n: nat) returns (long: seq<FrameDTO>)
    requires IsChain(groups, chain) && i < j < |chain| && chain[i] == chain[j]
    ensures IsChain(groups, long) && |long| > n && long[|long| - 1] == chain[i]
  {
    if n == 0 {
      long := chain[..i + 1];
      ChainPrefix(groups, chain, i + 1);
    } else {
      var before := GoRound(groups, chain, i, j, n - 1);
      var round := chain[i + 1..j + 1];
      long := before + round;
      forall k | 0 <= k < |long| - 1 ensures long[k + 1] in Lookup(groups, long[k].id) {
        if k < |before| - 1 {
          assert before[k + 1] in Lookup(groups, before[k].id);
        } else {
          var at := k - (|before| - 1) + i;
          assert chain[at + 1] in Lookup(groups, chain[at].id);
        }
      }
    }
  }

  /** The trees can be rebuilt exactly when no chain from a root meets a frame again. */
  lemma {:induction false} RebuildableExactly(frames: seq<FrameDTO>)
    ensures Rebuildable(frames) <==> forall chain :: IsChain(SortedGroups(frames), chain) ==> !Repeats(chain)
  {
    var sorted, groups := Sorting.Sort(ByCallIndex(), frames), SortedGroups(frames);
    if Rebuildable(frames) {
      var limit: nat :| Bounded(groups, limit);
      forall chain | IsChain(groups, chain) ensures !Repeats(chain) {
        if Repeats(chain) {
          var i, j :| 0 <= i < j < |chain| && chain[i] == chain[j];
          var long := GoRound(groups, chain, i, j, limit);
        }
      }
    }
    if forall chain :: IsChain(groups, chain) ==> !Repeats(chain) {
      forall chain | IsChain(groups, chain) ensures |chain| <= |sorted| {
        assert !Repeats(chain);
        ChainIsListed(sorted, chain);
        NoLonger(chain, sorted);
      }
      assert Bounded(groups, |sorted|);
    }
  }

  /** Distinct ids, none of them the key of the roots. */
  ghost predicate DistinctIDs(frames: seq<FrameDTO>) {
    && (forall f, g :: f in frames && g in frames && f.id == g.id ==> f == g)
    && (forall f :: f in frames ==> f.id != ROOT_KEY)
  }

  lemma {:induction false} SameID(frames: seq<FrameDTO>, f: FrameDTO, g: FrameDTO)
    requires DistinctIDs(frames) && f in frames && g in frames
    ensures f.id == g.id ==> f == g
    ensures f.id != ROOT_KEY
  {
  }

  lemma {:induction false} NoRepeats(frames: seq<FrameDTO>, chain: seq<FrameDTO>, i: nat, j: nat)
    requires DistinctIDs(frames) && IsChain(GroupMap(frames, |frames|), chain) && i < j < |chain|
    ensures chain[i] != chain[j]
  {
    hide ParentKey, IDSet, GroupMap, IsChain, DistinctIDs;
    ChainIsListed(frames, chain);
    if chain[i] == chain[j] {
      assert KeyAbove(chain, i) == KeyAbove(chain, j);
      SameID(frames, chain[j - 1], chain[if i > 0 then i - 1 else i]);
      if i > 0 {
        NoRepeats(frames, chain, i - 1, j - 1);
      }
    }
  }

  /** Lists with distinct ids can always be rebuilt, whatever parents the frames name. */
  lemma {:induction false} DistinctIDsSuffice(frames: seq<FrameDTO>)
    requires DistinctIDs(frames)
    ensures Rebuildable(frames)
  {
    var sorted := Sorting.Sort(ByCallIndex(), frames);
    forall f ensures f in sorted <==> f in frames {
      Sorting.SameElements(sorted, frames, f);
    }
    forall chain | IsChain(SortedGroups(frames), chain) ensures !Repeats(chain) {
      forall i, j | 0 <= i < j < |chain| ensures chain[i] != chain[j] {
        NoRepeats(sorted, chain, i, j);
      }
    }
    RebuildableExactly(frames);
  }
}
