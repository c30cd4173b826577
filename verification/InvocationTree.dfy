/** Rebuilding a flattened trace: the forest shown for the frames of a summary is the call tree
    itself, pruned to the important frames unless the raw view is asked for. */
module InvocationTree {
  import opened Text
  import opened TokenCalls
  import opened TraceTree
  import opened FrameForest
  import Sorting
  import TraceEvidence

  // ---- the reference: the call tree itself, decorated with the listed frames ----

  function Annotate(f: CallFrame, frames: seq<FrameDTO>, at: nat): Node
    requires at + Size(f) <= |frames|
    decreases f, 1
  {
    Node(frames[at], AnnotateCalls(f.calls, frames, at + 1))
  }

  function AnnotateCalls(calls: seq<CallFrame>, frames: seq<FrameDTO>, at: nat): seq<Node>
    requires at + SizeAll(calls) <= |frames|
    decreases calls, 0
  {
    if calls == [] then [] else
      [Annotate(calls[0], frames, at)] + AnnotateCalls(calls[1..], frames, at + Size(calls[0]))
  }

  function Prune(n: Node, raw: bool): Option<Node>
    decreases n, 1
  {
    var kids := PruneAll(n.children, raw);
    if raw || Important(n.frame) || kids != [] then Some(Node(n.frame, kids)) else None
  }

  function PruneAll(nodes: seq<Node>, raw: bool): seq<Node>
    decreases nodes, 0
  {
    if nodes == [] then [] else
      var head := Prune(nodes[0], raw);
      (if head.Some? then [head.value] else []) + PruneAll(nodes[1..], raw)
  }

  // ---- the frames of a summary ----

  function ToDTO(f: FlatFrame, tags: seq<string>): FrameDTO {
    FrameDTO(f.id, f.parentID, f.depth, f.callIndex, f.frame.kind, f.frame.from, f.frame.to,
             f.frame.error, f.frame.revertReason, TraceEvidence.TokenOf(f.frame), tags)
  }

  /** The frames carry the ids, parent ids and call indexes of a flattened trace. */
  ghost predicate Describes(frames: seq<FrameDTO>, out: seq<FlatFrame>) {
    && |frames| == |out|
    && forall i :: 0 <= i < |out| ==>
         frames[i].id == out[i].id && frames[i].parentID == out[i].parentID && frames[i].callIndex == out[i].callIndex
  }

  /** Every frame but the first has its parent earlier in the list. */
  lemma {:induction false} ParentListed(f: CallFrame, id: string, parent: string, depth: nat, index: nat, j: nat)
    returns (i: nat)
    requires 0 < j < Size(f)
    ensures
      var out := Flatten(f, id, parent, depth, index);
      i < j && out[i].id == out[j].parentID
    decreases f, 1
  {
    i := ParentListedCalls(f.calls, 0, id, depth + 1, index + 1, j - 1);
  }

  lemma {:induction false} ParentListedCalls(calls: seq<CallFrame>, k: nat, parent: string, depth: nat, index: nat, j: nat)
    returns (i: nat)
    requires j < SizeAll(calls)
    ensures i <= j
    ensures
      var out := FlattenCalls(calls, k, parent, depth, index);
      out[j].parentID == if i == 0 then parent else out[i - 1].id
    decreases calls, 0
  {
    hide ChildID;
    var n := Size(calls[0]);
    if j == 0 {
      i := 0;
    } else if j < n {
      i := ParentListed(calls[0], ChildID(parent, k), parent, depth, index, j);
      i := i + 1;
    } else {
      i := ParentListedCalls(calls[1..], k + 1, parent, depth, index + n, j - n);
      if i > 0 {
        i := i + n;
      }
    }
  }

  // ---- grouping finds the children of each frame ----

  /** The first frame of each subtree in a run of sibling subtrees. */
  function Heads(frames: seq<FrameDTO>, calls: seq<CallFrame>, at: nat): seq<FrameDTO>
    requires at + SizeAll(calls) <= |frames|
    decreases calls
  {
    if calls == [] then [] else [frames[at]] + Heads(frames, calls[1..], at + Size(calls[0]))
  }

  lemma {:induction false} ChildrenSkip(frames: seq<FrameDTO>, keys: seq<string>, key: string, a: nat, b: nat)
    requires a <= b <= |frames| == |keys|
    requires forall j :: a <= j < b ==> keys[j] != key
    ensures Children(frames, keys, key, b) == Children(frames, keys, key, a)
  {
    if a < b {
      ChildrenSkip(frames, keys, key, a, b - 1);
    }
  }

  /** Position j of a run of sibling subtrees is where one of the subtrees starts. */
  predicate IsHead(calls: seq<CallFrame>, j: nat)
    decreases calls
  {
    calls != [] && (j == 0 || (j >= Size(calls[0]) && IsHead(calls[1..], j - Size(calls[0]))))
  }

  /** Of a run of subtrees, the first one's inner positions are no heads, and the rest is a run again. */
  lemma {:induction false} HeadsSplit(keys: seq<string>, key: string, calls: seq<CallFrame>, at: nat)
    requires calls != [] && at + SizeAll(calls) <= |keys|
    requires forall j :: at <= j < at + SizeAll(calls) ==> (keys[j] == key <==> IsHead(calls, j - at))
    ensures
      var n := Size(calls[0]);
      && SizeAll(calls) == n + SizeAll(calls[1..]) && n > 0 && keys[at] == key
      && (forall j :: at + 1 <= j < at + n ==> keys[j] != key)
      && (forall j :: at + n <= j < at + n + SizeAll(calls[1..]) ==> (keys[j] == key <==> IsHead(calls[1..], j - (at + n))))
  {
    forall j | at + Size(calls[0]) <= j < at + SizeAll(calls) ensures keys[j] == key <==> IsHead(calls[1..], j - (at + Size(calls[0]))) {
      assert keys[j] == key <==> IsHead(calls, j - at);
    }
  }

  lemma {:induction false} NoHeads(frames: seq<FrameDTO>, at: nat)
    requires at <= |frames|
    ensures Heads(frames, [], at) == []
  {
  }

  lemma {:induction false} FirstHead(frames: seq<FrameDTO>, keys: seq<string>, key: string, calls: seq<CallFrame>, at: nat)
    requires calls != [] && at < |frames| == |keys| && at + SizeAll(calls) <= |frames| && keys[at] == key
    ensures Children(frames, keys, key, at + 1) == Children(frames, keys, key, at) + [frames[at]]
    ensures Heads(frames, calls, at) == [frames[at]] + Heads(frames, calls[1..], at + Size(calls[0]))
  {
  }

  lemma {:induction false} ChildrenAreHeads(frames: seq<FrameDTO>, keys: seq<string>, key: string,
                                            calls: seq<CallFrame>, at: nat)
    requires at + SizeAll(calls) <= |frames| == |keys|
    requires forall j :: at <= j < at + SizeAll(calls) ==> (keys[j] == key <==> IsHead(calls, j - at))
    ensures Children(frames, keys, key, at + SizeAll(calls)) == Children(frames, keys, key, at) + Heads(frames, calls, at)
    decreases calls
  {
    hide IsHead, Children, Heads;
    if calls == [] {
      NoHeads(frames, at);
    } else {
      var n := Size(calls[0]);
      HeadsSplit(keys, key, calls, at);
      FirstHead(frames, keys, key, calls, at);
      ChildrenSkip(frames, keys, key, at + 1, at + n);
      ChildrenAreHeads(frames, keys, key, calls[1..], at + n);
    }
  }

  lemma {:induction false} HeadsHaveParent(calls: seq<CallFrame>, k: nat, parent: string, depth: nat, index: nat, j: nat)
    requires j < SizeAll(calls)
    ensures FlattenCalls(calls, k, parent, depth, index)[j].parentID == parent <==> IsHead(calls, j)
    decreases calls
  {
    var n := Size(calls[0]);
    if 0 < j < n {
      IdsUnder(calls[0], ChildID(parent, k), parent, depth, index, j);
      UnderChildSpellsIndex(parent, k, Flatten(calls[0], ChildID(parent, k), parent, depth, index)[j].parentID);
    } else if j >= n {
      HeadsHaveParent(calls[1..], k + 1, parent, depth, index + n, j - n);
    }
  }

  /** What the flattening guarantees about parents, for the whole list. */
  lemma {:induction false} TraceParents(root: CallFrame, j: nat) returns (i: nat, k: nat)
    requires 0 < j < Size(root)
    ensures
      var out := FlattenTrace(root);
      && i < j && out[i].id == out[j].parentID
      && Under(ROOT_ID, out[j].parentID)
      && out[j].id == ChildID(out[j].parentID, k)
  {
    i := ParentListed(root, ROOT_ID, "", 0, 0, j);
    IdsUnder(root, ROOT_ID, "", 0, 0, j);
    k :| FlattenTrace(root)[j].id == ChildID(FlattenTrace(root)[j].parentID, k);
  }

  lemma {:induction false} ParentKeys(root: CallFrame, frames: seq<FrameDTO>, j: nat)
    requires Describes(frames, FlattenTrace(root)) && j < |frames|
    ensures KeysOf(frames)[j] == if j == 0 then ROOT_KEY else frames[j].parentID
    ensures j > 0 ==> frames[j].parentID != ROOT_KEY
  {
    var out := FlattenTrace(root);
    if j > 0 {
      var i, _ := TraceParents(root, j);
      assert frames[i] in frames && frames[i].id == frames[j].parentID;
      assert ROOT_ID[0] == 't' && ROOT_KEY[0] == '_';
      assert ROOT_ID <= out[j].parentID;
    }
  }

  lemma {:induction false} ChildAt(root: CallFrame, frames: seq<FrameDTO>, i: nat, j: nat)
    requires Describes(frames, FlattenTrace(root)) && i < |frames|
    requires j < SizeAll(FlattenTrace(root)[i].frame.calls)
    ensures i + 1 + j < |frames|
    ensures KeysOf(frames)[i + 1 + j] == frames[i].id <==> IsHead(FlattenTrace(root)[i].frame.calls, j)
  {
    var at := FlattenTrace(root)[i];
    hide IsHead, FlattenCalls, FlattenTrace, KeysOf, Describes;
    CallsFollow(root, i, j);
    HeadsHaveParent(at.frame.calls, 0, at.id, at.depth + 1, i + 1, j);
    ParentKeys(root, frames, i + 1 + j);
  }

  /** The positions carrying `key` are where the subtrees of `calls`, laid out from `at`, start. */
  ghost predicate KeysAtHeads(keys: seq<string>, key: string, calls: seq<CallFrame>, at: nat) {
    forall j :: 0 <= j < |keys| ==> (keys[j] == key <==> at <= j < at + SizeAll(calls) && IsHead(calls, j - at))
  }

  lemma {:induction false} GroupOfFrame(frames: seq<FrameDTO>, keys: seq<string>, key: string, calls: seq<CallFrame>,
                                        at: nat)
    requires at + SizeAll(calls) <= |frames| == |keys| && KeysAtHeads(keys, key, calls, at)
    ensures Children(frames, keys, key, |frames|) == Heads(frames, calls, at)
  {
    ChildrenSkip(frames, keys, key, 0, at);
    ChildrenAreHeads(frames, keys, key, calls, at);
    ChildrenSkip(frames, keys, key, at + SizeAll(calls), |frames|);
  }

  lemma {:induction false} KeyAt(root: CallFrame, frames: seq<FrameDTO>, i: nat, j: nat)
    requires Describes(frames, FlattenTrace(root)) && i < |frames| && j < |frames|
    ensures
      var calls := FlattenTrace(root)[i].frame.calls;
      KeysOf(frames)[j] == frames[i].id <==> i + 1 <= j < i + 1 + SizeAll(calls) && IsHead(calls, j - (i + 1))
  {
    if i < j < i + Size(FlattenTrace(root)[i].frame) {
      ChildAt(root, frames, i, j - (i + 1));
    } else {
      NotAChild(root, frames, i, j);
    }
  }

  /** The children group of the i-th frame lists the frames of its calls, in call order. */
  lemma {:induction false} ChildrenOfFrame(root: CallFrame, frames: seq<FrameDTO>, i: nat)
    requires Describes(frames, FlattenTrace(root)) && i < |frames|
    ensures
      var f := FlattenTrace(root)[i].frame;
      && i + Size(f) <= |frames|
      && Children(frames, KeysOf(frames), frames[i].id, |frames|) == Heads(frames, f.calls, i + 1)
  {
    RunFits(root, i);
    KeysOfFrame(root, frames, i, FlattenTrace(root)[i].frame.calls);
    GroupOfFrame(frames, KeysOf(frames), frames[i].id, FlattenTrace(root)[i].frame.calls, i + 1);
  }

  lemma {:induction false} KeysOfFrame(root: CallFrame, frames: seq<FrameDTO>, i: nat, calls: seq<CallFrame>)
    requires Describes(frames, FlattenTrace(root)) && i < |frames| && calls == FlattenTrace(root)[i].frame.calls
    ensures KeysAtHeads(KeysOf(frames), frames[i].id, calls, i + 1)
  {
    forall j | 0 <= j < |frames|
      ensures KeysOf(frames)[j] == frames[i].id <==> i + 1 <= j < i + 1 + SizeAll(calls) && IsHead(calls, j - (i + 1))
    {
      KeyAt(root, frames, i, j);
    }
  }

  lemma {:induction false} ChildIsUnder(parent: string, k: nat)
    ensures Under(parent, ChildID(parent, k))
  {
    assert parent + "." <= ChildID(parent, k);
  }

  lemma {:induction false} NotAChild(root: CallFrame, frames: seq<FrameDTO>, i: nat, j: nat)
    requires Describes(frames, FlattenTrace(root)) && i < |frames| && j < |frames|
    requires !(i < j < i + Size(FlattenTrace(root)[i].frame))
    ensures KeysOf(frames)[j] != frames[i].id
  {
    var out := FlattenTrace(root);
    ParentKeys(root, frames, j);
    FlattenIsPreorder(root);
    assert RunAt(out, i);
    if j == 0 {
      IdsUnder(root, ROOT_ID, "", 0, 0, i);
      assert ROOT_ID[0] == 't' && ROOT_KEY[0] == '_';
      assert ROOT_ID <= out[i].id;
    } else {
      var _, k := TraceParents(root, j);
      ChildIsUnder(out[j].parentID, k);
    }
  }

  lemma {:induction false} ChildrenOfRootKey(root: CallFrame, frames: seq<FrameDTO>)
    requires Describes(frames, FlattenTrace(root))
    ensures Children(frames, KeysOf(frames), ROOT_KEY, |frames|) == [frames[0]]
  {
    forall j | 0 <= j < |frames| ensures KeysOf(frames)[j] == ROOT_KEY <==> j == 0 {
      ParentKeys(root, frames, j);
    }
    ChildrenSkip(frames, KeysOf(frames), ROOT_KEY, 1, |frames|);
  }

  lemma {:induction false} TraceIDsDistinct(root: CallFrame, frames: seq<FrameDTO>)
    requires Describes(frames, FlattenTrace(root))
    ensures DistinctIDs(frames)
  {
    var out := FlattenTrace(root);
    FlattenIsPreorder(root);
    forall f, g | f in frames && g in frames && f.id == g.id ensures f == g {
      var i :| 0 <= i < |frames| && frames[i] == f;
      var j :| 0 <= j < |frames| && frames[j] == g;
      assert RunAt(out, i);
    }
    forall f | f in frames ensures f.id != ROOT_KEY {
      var i :| 0 <= i < |frames| && frames[i] == f;
      IdsUnder(root, ROOT_ID, "", 0, 0, i);
      assert ROOT_ID[0] == 't' && ROOT_KEY[0] == '_';
      assert ROOT_ID <= out[i].id;
    }
  }

  // ---- rebuilding ----

  function Preorder(f: CallFrame): (out: seq<CallFrame>)
    ensures |out| == Size(f)
    decreases f, 1
  {
    [f] + PreorderAll(f.calls)
  }

  function PreorderAll(calls: seq<CallFrame>): (out: seq<CallFrame>)
    ensures |out| == SizeAll(calls)
    decreases calls, 0
  {
    if calls == [] then [] else Preorder(calls[0]) + PreorderAll(calls[1..])
  }

  lemma {:induction false} FlattenKeepsOrder(f: CallFrame, id: string, parent: string, depth: nat, index: nat, j: nat)
    requires j < Size(f)
    ensures Flatten(f, id, parent, depth, index)[j].frame == Preorder(f)[j]
    decreases f, 1
  {
    if j > 0 {
      FlattenCallsKeepsOrder(f.calls, 0, id, depth + 1, index + 1, j - 1);
    }
  }

  lemma {:induction false} FlattenCallsKeepsOrder(calls: seq<CallFrame>, k: nat, parent: string, depth: nat,
                                                  index: nat, j: nat)
    requires j < SizeAll(calls)
    ensures FlattenCalls(calls, k, parent, depth, index)[j].frame == PreorderAll(calls)[j]
    decreases calls, 0
  {
    var n := Size(calls[0]);
    if j < n {
      FlattenKeepsOrder(calls[0], ChildID(parent, k), parent, depth, index, j);
    } else {
      FlattenCallsKeepsOrder(calls[1..], k + 1, parent, depth, index + n, j - n);
    }
  }

  /** Frame i has call index i and its group lists the frames of the calls of `shape`. */
  ghost predicate Placed(groups: map<string, seq<FrameDTO>>, frames: seq<FrameDTO>, shape: CallFrame, i: nat) {
    && i + Size(shape) <= |frames|
    && frames[i].callIndex == i
    && Lookup(groups, frames[i].id) == Heads(frames, shape.calls, i + 1)
  }

  /** The frames from `at` on are placed like the tree f. */
  ghost predicate Laid(groups: map<string, seq<FrameDTO>>, frames: seq<FrameDTO>, f: CallFrame, at: nat)
    decreases f, 1
  {
    Placed(groups, frames, f, at) && LaidAll(groups, frames, f.calls, at + 1)
  }

  ghost predicate LaidAll(groups: map<string, seq<FrameDTO>>, frames: seq<FrameDTO>, calls: seq<CallFrame>, at: nat)
    decreases calls, 0
  {
    calls == [] || (Laid(groups, frames, calls[0], at) && LaidAll(groups, frames, calls[1..], at + Size(calls[0])))
  }

  lemma {:induction false} PlacedIsLaid(groups: map<string, seq<FrameDTO>>, frames: seq<FrameDTO>, f: CallFrame, at: nat)
    requires forall j :: 0 <= j < Size(f) ==> Placed(groups, frames, Preorder(f)[j], at + j)
    ensures Laid(groups, frames, f, at)
    decreases f, 1
  {
    hide Placed, LaidAll;
    assert Placed(groups, frames, Preorder(f)[0], at + 0);
    forall j | 0 <= j < SizeAll(f.calls) ensures Placed(groups, frames, PreorderAll(f.calls)[j], at + 1 + j) {
      assert Placed(groups, frames, Preorder(f)[1 + j], at + (1 + j));
    }
    PlacedIsLaidAll(groups, frames, f.calls, at + 1);
  }

  lemma {:induction false} PlacedIsLaidAll(groups: map<string, seq<FrameDTO>>, frames: seq<FrameDTO>,
                                           calls: seq<CallFrame>, at: nat)
    requires forall j :: 0 <= j < SizeAll(calls) ==> Placed(groups, frames, PreorderAll(calls)[j], at + j)
    ensures LaidAll(groups, frames, calls, at)
    decreases calls, 0
  {
    hide Placed, Laid;
    if calls != [] {
      var n := Size(calls[0]);
      forall j | 0 <= j < n ensures Placed(groups, frames, Preorder(calls[0])[j], at + j) {
        assert PreorderAll(calls)[j] == Preorder(calls[0])[j];
      }
      PlacedIsLaid(groups, frames, calls[0], at);
      forall j | 0 <= j < SizeAll(calls[1..]) ensures Placed(groups, frames, PreorderAll(calls[1..])[j], at + n + j) {
        assert Placed(groups, frames, PreorderAll(calls)[n + j], at + (n + j));
      }
      PlacedIsLaidAll(groups, frames, calls[1..], at + n);
    }
  }

  /** Building the node of a laid-out tree gives the decorated tree, pruned. */
  lemma {:induction false} BuildsTree(groups: map<string, seq<FrameDTO>>, limit: nat, above: seq<FrameDTO>,
                                      frames: seq<FrameDTO>, f: CallFrame, at: nat, raw: bool)
    requires Bounded(groups, limit) && Laid(groups, frames, f, at) && IsChain(groups, above + [frames[at]])
    ensures BuildNode(groups, limit, above, frames[at], raw) == Prune(Annotate(f, frames, at), raw)
    decreases f, 1
  {
    hide LaidAll, Important, Heads, PruneAll, IsChain, Lookup;
    assert BelowChain(groups, above, frames[at]) == Heads(frames, f.calls, at + 1);
    ChainFits(groups, limit, above + [frames[at]]);
    BuildsCalls(groups, limit, above + [frames[at]], frames, f.calls, at + 1, raw);
  }

  lemma {:induction false} ChainFits(groups: map<string, seq<FrameDTO>>, limit: nat, chain: seq<FrameDTO>)
    requires Bounded(groups, limit) && IsChain(groups, chain)
    ensures |chain| <= limit
  {
  }

  lemma {:induction false} BuildsCalls(groups: map<string, seq<FrameDTO>>, limit: nat, above: seq<FrameDTO>,
                                       frames: seq<FrameDTO>, calls: seq<CallFrame>, at: nat, raw: bool)
    requires Bounded(groups, limit) && |above| <= limit && at + SizeAll(calls) <= |frames| && LaidAll(groups, frames, calls, at)
    requires forall c :: c in Heads(frames, calls, at) ==> IsChain(groups, above + [c])
    ensures BuildNodes(groups, limit, above, Heads(frames, calls, at), raw) == PruneAll(AnnotateCalls(calls, frames, at), raw)
    decreases calls, 0
  {
    hide IsChain, Bounded, Important;
    if calls != [] {
      var heads := Heads(frames, calls, at);
      assert heads[0] in heads && heads[1..] == Heads(frames, calls[1..], at + Size(calls[0]));
      BuildsTree(groups, limit, above, frames, calls[0], at, raw);
      BuildsCalls(groups, limit, above, frames, calls[1..], at + Size(calls[0]), raw);
    }
  }

  lemma {:induction false} TraceIsLaid(root: CallFrame, frames: seq<FrameDTO>, groups: map<string, seq<FrameDTO>>)
    requires Describes(frames, FlattenTrace(root)) && Groups(groups, frames, |frames|)
    ensures Laid(groups, frames, root, 0)
  {
    FlattenIsPreorder(root);
    forall j | 0 <= j < Size(root) ensures Placed(groups, frames, Preorder(root)[j], 0 + j) {
      FlattenKeepsOrder(root, ROOT_ID, "", 0, 0, j);
      assert RunAt(FlattenTrace(root), j);
      ChildrenOfFrame(root, frames, j);
    }
    PlacedIsLaid(groups, frames, root, 0);
  }

  // ---- the forest of a trace ----

  lemma {:induction false} BuildsForest(groups: map<string, seq<FrameDTO>>, limit: nat, frames: seq<FrameDTO>, root: CallFrame,
                                        raw: bool)
    requires Bounded(groups, limit) && Laid(groups, frames, root, 0) && Lookup(groups, ROOT_KEY) == [frames[0]]
    ensures BuildNodes(groups, limit, [], RootChains(groups), raw) == PruneAll([Annotate(root, frames, 0)], raw)
  {
    var list, node := [frames[0]], Annotate(root, frames, 0);
    assert [] + [frames[0]] == [frames[0]];
    BuildsTree(groups, limit, [], frames, root, 0, raw);
    hide Bounded, Important, IsChain, Laid;
    assert list[1..] == [] && [node][1..] == [];
    assert BuildNodes(groups, limit, [], list[1..], raw) == [] == PruneAll([node][1..], raw);
  }

  /** The frames of a summary, in any order: they can be rebuilt, and what is shown is the call tree,
      pruned. `listed` are the frames in flattening order. */
  lemma {:induction false} TraceForest(root: CallFrame, frames: seq<FrameDTO>, listed: seq<FrameDTO>, raw: bool)
    requires multiset(listed) == multiset(frames) && Describes(listed, FlattenTrace(root))
    ensures Rebuildable(frames) && Forest(frames, raw) == PruneAll([Annotate(root, listed, 0)], raw)
  {
    SortedAsListed(root, frames, listed);
    TraceIDsDistinct(root, listed);
    SameIDs(listed, frames);
    DistinctIDsSuffice(frames);
    var groups := SortedGroups(frames);
    GroupsListChildren(listed, |listed|);
    TraceIsLaid(root, listed, groups);
    ChildrenOfRootKey(root, listed);
    BuildsForest(groups, LimitOf(frames), listed, root, raw);
  }

  lemma {:induction false} SameIDs(listed: seq<FrameDTO>, frames: seq<FrameDTO>)
    requires multiset(listed) == multiset(frames) && DistinctIDs(listed)
    ensures DistinctIDs(frames)
  {
    forall f ensures f in listed <==> f in frames {
      Sorting.SameElements(listed, frames, f);
    }
  }

  /** Sorting any permutation of a trace's frames restores the flattening order. */
  lemma {:induction false} SortedAsListed(root: CallFrame, frames: seq<FrameDTO>, listed: seq<FrameDTO>)
    requires multiset(listed) == multiset(frames) && Describes(listed, FlattenTrace(root))
    ensures Sorting.Sort(ByCallIndex(), frames) == listed
  {
    var sorted := Sorting.Sort(ByCallIndex(), frames);
    FlattenIsPreorder(root);
    forall i | 0 <= i < |listed| ensures listed[i].callIndex == i {
      assert RunAt(FlattenTrace(root), i);
    }
    assert Sorting.StrictlySorted(ByCallIndex(), listed);
    Sorting.SortSorted(ByCallIndex(), frames);
    DistinctIndexes(listed, sorted);
    Sorting.StrictlySortedUnique(ByCallIndex(), sorted, listed);
  }

  lemma {:induction false} DistinctIndexes(listed: seq<FrameDTO>, sorted: seq<FrameDTO>)
    requires multiset(listed) == multiset(sorted) && Sorting.Sorted(ByCallIndex(), sorted)
    requires forall i :: 0 <= i < |listed| ==> listed[i].callIndex == i
    ensures Sorting.StrictlySorted(ByCallIndex(), sorted)
  {
    forall i, j | 0 <= i < j < |sorted| ensures ByCallIndex()(sorted[i], sorted[j]) {
      if sorted[i].callIndex == sorted[j].callIndex {
        Sorting.SameElements(listed, sorted, sorted[i]);
        Sorting.SameElements(listed, sorted, sorted[j]);
        assert sorted[i] == sorted[j];
        TwiceInMultiset(sorted, i, j);
        OnceInMultiset(listed, sorted[i]);
      }
      assert !ByCallIndex()(sorted[j], sorted[i]);
    }
  }

  lemma {:induction false} TwiceInMultiset(s: seq<FrameDTO>, i: nat, j: nat)
    requires i < j < |s| && s[i] == s[j]
    ensures multiset(s)[s[i]] >= 2
  {
    assert s == s[..j] + [s[j]] + s[j + 1..];
    assert s[i] in s[..j];
  }

  lemma {:induction false} OnceInMultiset(s: seq<FrameDTO>, x: FrameDTO)
    requires forall i, j :: 0 <= i < j < |s| ==> s[i].callIndex != s[j].callIndex
    ensures multiset(s)[x] <= 1
  {
    if s != [] {
      OnceInMultiset(s[1..], x);
      assert s == [s[0]] + s[1..];
      if s[0] == x {
        assert x !in s[1..];
      }
    }
  }

  // ---- what survives ----

  /** Everything about a call that the page shows: input and output data are not sent. */
  function Shown(f: CallFrame): CallFrame
    decreases f, 1
  {
    CallFrame(f.kind, f.from, f.to, "", "", f.error, f.revertReason, ShownAll(f.calls))
  }

  function ShownAll(calls: seq<CallFrame>): seq<CallFrame>
    decreases calls, 0
  {
    if calls == [] then [] else [Shown(calls[0])] + ShownAll(calls[1..])
  }

  /** The call tree a node stands for. */
  function CallOf(n: Node): CallFrame
    decreases n, 1
  {
    CallFrame(n.frame.kind, n.frame.from, n.frame.to, "", "", n.frame.error, n.frame.revertReason, CallsOf(n.children))
  }

  function CallsOf(nodes: seq<Node>): seq<CallFrame>
    decreases nodes, 0
  {
    if nodes == [] then [] else [CallOf(nodes[0])] + CallsOf(nodes[1..])
  }

  ghost predicate Carries(frame: FrameDTO, f: CallFrame) {
    && frame.kind == f.kind && frame.from == f.from && frame.to == f.to
    && frame.error == f.error && frame.revertReason == f.revertReason
  }

  lemma {:induction false} AnnotateKeepsCalls(f: CallFrame, frames: seq<FrameDTO>, at: nat)
    requires at + Size(f) <= |frames|
    requires forall j :: 0 <= j < Size(f) ==> Carries(frames[at + j], Preorder(f)[j])
    ensures CallOf(Annotate(f, frames, at)) == Shown(f)
    decreases f, 1
  {
    assert Carries(frames[at + 0], Preorder(f)[0]);
    forall j | 0 <= j < SizeAll(f.calls) ensures Carries(frames[at + 1 + j], PreorderAll(f.calls)[j]) {
      assert Carries(frames[at + (1 + j)], Preorder(f)[1 + j]);
    }
    AnnotateCallsKeepsCalls(f.calls, frames, at + 1);
  }

  lemma {:induction false} AnnotateCallsKeepsCalls(calls: seq<CallFrame>, frames: seq<FrameDTO>, at: nat)
    requires at + SizeAll(calls) <= |frames|
    requires forall j :: 0 <= j < SizeAll(calls) ==> Carries(frames[at + j], PreorderAll(calls)[j])
    ensures CallsOf(AnnotateCalls(calls, frames, at)) == ShownAll(calls)
    decreases calls, 0
  {
    if calls != [] {
      var n := Size(calls[0]);
      forall j | 0 <= j < n ensures Carries(frames[at + j], Preorder(calls[0])[j]) {
        assert PreorderAll(calls)[j] == Preorder(calls[0])[j];
      }
      AnnotateKeepsCalls(calls[0], frames, at);
      forall j | 0 <= j < SizeAll(calls[1..]) ensures Carries(frames[at + n + j], PreorderAll(calls[1..])[j]) {
        assert Carries(frames[at + (n + j)], PreorderAll(calls)[n + j]);
      }
      AnnotateCallsKeepsCalls(calls[1..], frames, at + n);
    }
  }

  lemma {:induction false} RawPruneIsIdentity(n: Node)
    ensures Prune(n, true) == Some(n)
    decreases n, 1
  {
    RawPruneAllIsIdentity(n.children);
  }

  lemma {:induction false} RawPruneAllIsIdentity(nodes: seq<Node>)
    ensures PruneAll(nodes, true) == nodes
    decreases nodes, 0
  {
    if nodes != [] {
      RawPruneIsIdentity(nodes[0]);
      RawPruneAllIsIdentity(nodes[1..]);
    }
  }

  /** The frames a summary shows for a flattened trace, given the tags of each frame. */
  ghost predicate Summarises(frames: seq<FrameDTO>, out: seq<FlatFrame>) {
    |frames| == |out| && forall i :: 0 <= i < |out| ==> frames[i] == ToDTO(out[i], frames[i].tags)
  }

  /** Flatten, send in any order, rebuild in the raw view: one tree comes back, and it is the call tree. */
  lemma {:induction false} RawRoundTrip(root: CallFrame, frames: seq<FrameDTO>, listed: seq<FrameDTO>)
    requires multiset(listed) == multiset(frames) && Summarises(listed, FlattenTrace(root))
    ensures Rebuildable(frames)
    ensures var rebuilt := Forest(frames, true); |rebuilt| == 1 && CallOf(rebuilt[0]) == Shown(root)
  {
    assert Describes(listed, FlattenTrace(root));
    TraceForest(root, frames, listed, true);
    RawPruneAllIsIdentity([Annotate(root, listed, 0)]);
    forall j | 0 <= j < Size(root) ensures Carries(listed[0 + j], Preorder(root)[j]) {
      FlattenKeepsOrder(root, ROOT_ID, "", 0, 0, j);
      SummaryCarries(listed, FlattenTrace(root), j);
    }
    AnnotateKeepsCalls(root, listed, 0);
  }

  lemma {:induction false} SummaryCarries(frames: seq<FrameDTO>, out: seq<FlatFrame>, j: nat)
    requires Summarises(frames, out) && j < |out|
    ensures Carries(frames[j], out[j].frame)
  {
  }

  function NodeFrames(n: Node): seq<FrameDTO>
    decreases n, 1
  {
    [n.frame] + AllNodeFrames(n.children)
  }

  function AllNodeFrames(nodes: seq<Node>): seq<FrameDTO>
    decreases nodes, 0
  {
    if nodes == [] then [] else NodeFrames(nodes[0]) + AllNodeFrames(nodes[1..])
  }

  /** marks[j] says whether frame j is important. */
  ghost predicate Marks(frames: seq<FrameDTO>, marks: seq<bool>) {
    |marks| == |frames| && forall j {:trigger Important(frames[j])} :: 0 <= j < |frames| ==> marks[j] == Important(frames[j])
  }

  ghost predicate SomeMarked(marks: seq<bool>, a: nat, b: nat)
    requires b <= |marks|
  {
    exists j :: a <= j < b && marks[j]
  }

  /** The frames from a to b, keeping the j-th when its run (of length sizes[j]) holds a mark. */
  ghost function Kept(frames: seq<FrameDTO>, marks: seq<bool>, sizes: seq<nat>, a: nat, b: nat): seq<FrameDTO>
    requires a <= b <= |frames| == |marks| == |sizes| && SizesFit(sizes)
    decreases b - a
  {
    if a == b then [] else
      (if SomeMarked(marks, a, a + sizes[a]) then [frames[a]] else []) + Kept(frames, marks, sizes, a + 1, b)
  }

  lemma {:induction false} KeptSplit(frames: seq<FrameDTO>, marks: seq<bool>, sizes: seq<nat>, a: nat, m: nat, b: nat)
    requires a <= m <= b <= |frames| == |marks| == |sizes| && SizesFit(sizes)
    ensures Kept(frames, marks, sizes, a, b) == Kept(frames, marks, sizes, a, m) + Kept(frames, marks, sizes, m, b)
    decreases m - a
  {
    if a < m {
      KeptSplit(frames, marks, sizes, a + 1, m, b);
    }
  }

  lemma {:induction false} SomeMarkedSplit(marks: seq<bool>, a: nat, m: nat, b: nat)
    requires a <= m <= b <= |marks|
    ensures SomeMarked(marks, a, b) <==> SomeMarked(marks, a, m) || SomeMarked(marks, m, b)
  {
  }

  ghost predicate SizesFit(sizes: seq<nat>) {
    forall j :: 0 <= j < |sizes| ==> j + sizes[j] <= |sizes|
  }

  /** The sizes from `at` on are those of the frames listed in `order`. */
  ghost predicate SizesMatch(sizes: seq<nat>, at: nat, order: seq<CallFrame>) {
    at + |order| <= |sizes| && forall j :: 0 <= j < |order| ==> sizes[at + j] == Size(order[j])
  }

  lemma {:induction false} SizesMatchSplit(sizes: seq<nat>, at: nat, first: seq<CallFrame>, rest: seq<CallFrame>)
    requires SizesMatch(sizes, at, first + rest)
    ensures SizesMatch(sizes, at, first) && SizesMatch(sizes, at + |first|, rest)
  {
    forall j | 0 <= j < |first| ensures sizes[at + j] == Size(first[j]) {
      assert (first + rest)[j] == first[j];
    }
    forall j | 0 <= j < |rest| ensures sizes[at + |first| + j] == Size(rest[j]) {
      assert (first + rest)[|first| + j] == rest[j] && at + (|first| + j) == at + |first| + j;
    }
  }

  /** Pruning `nodes` keeps exactly the frames from a to b whose run holds a mark. */
  ghost predicate PrunesTo(nodes: seq<Node>, frames: seq<FrameDTO>, marks: seq<bool>, sizes: seq<nat>, a: nat, b: nat) {
    && a <= b <= |frames| == |marks| == |sizes| && SizesFit(sizes)
    && (PruneAll(nodes, false) != [] <==> SomeMarked(marks, a, b))
    && AllNodeFrames(PruneAll(nodes, false)) == Kept(frames, marks, sizes, a, b)
  }

  lemma {:induction false} PrunesToNothing(frames: seq<FrameDTO>, marks: seq<bool>, sizes: seq<nat>, a: nat)
    requires a <= |frames| == |marks| == |sizes| && SizesFit(sizes)
    ensures PrunesTo([], frames, marks, sizes, a, a)
  {
  }

  lemma {:induction false} PrunesToJoin(n: Node, nodes: seq<Node>, frames: seq<FrameDTO>, marks: seq<bool>,
                                        sizes: seq<nat>, a: nat, m: nat, b: nat)
    requires PrunesTo([n], frames, marks, sizes, a, m) && PrunesTo(nodes, frames, marks, sizes, m, b)
    ensures PrunesTo([n] + nodes, frames, marks, sizes, a, b)
  {
    hide PruneAll, Prune, NodeFrames, Kept, SomeMarked, SizesFit;
    PruneAllCons(n, nodes);
    PruneAllCons(n, []);
    PruneAllNone();
    assert [n] + [] == [n];
    SomeMarkedSplit(marks, a, m, b);
    KeptSplit(frames, marks, sizes, a, m, b);
  }

  lemma {:induction false} PrunesToParent(n: Node, frames: seq<FrameDTO>, marks: seq<bool>, sizes: seq<nat>, a: nat, b: nat)
    requires PrunesTo(n.children, frames, marks, sizes, a + 1, b) && Marks(frames, marks)
    requires n.frame == frames[a] && a + sizes[a] == b
    ensures PrunesTo([n], frames, marks, sizes, a, b)
  {
    PruneAllCons(n, []);
    assert [n] + [] == [n];
    SomeMarkedSplit(marks, a, a + 1, b);
    assert SomeMarked(marks, a, a + 1) <==> Important(frames[a]);
  }

  lemma {:induction false} PruneAllNone()
    ensures PruneAll([], false) == []
  {
  }

  lemma {:induction false} PruneAllCons(n: Node, nodes: seq<Node>)
    ensures
      var kept, head, rest := PruneAll([n] + nodes, false), Prune(n, false), PruneAll(nodes, false);
      && AllNodeFrames(kept) == (if head.Some? then NodeFrames(head.value) else []) + AllNodeFrames(rest)
      && (kept != [] <==> head.Some? || rest != [])
  {
    assert ([n] + nodes)[1..] == nodes;
    var head, rest := Prune(n, false), PruneAll(nodes, false);
    if head.Some? {
      assert ([head.value] + rest)[1..] == rest;
    } else {
      assert [] + rest == rest;
    }
  }

  lemma {:induction false} AnnotateCallsCons(calls: seq<CallFrame>, frames: seq<FrameDTO>, at: nat)
    requires calls != [] && at + SizeAll(calls) <= |frames|
    ensures AnnotateCalls(calls, frames, at)
         == [Annotate(calls[0], frames, at)] + AnnotateCalls(calls[1..], frames, at + Size(calls[0]))
  {
  }

  lemma {:induction false} PrunedTree(f: CallFrame, frames: seq<FrameDTO>, marks: seq<bool>, sizes: seq<nat>, at: nat)
    requires Marks(frames, marks) && |frames| == |sizes| && SizesFit(sizes) && SizesMatch(sizes, at, Preorder(f))
    ensures PrunesTo([Annotate(f, frames, at)], frames, marks, sizes, at, at + Size(f))
    decreases f, 1
  {
    SizesMatchSplit(sizes, at, [f], PreorderAll(f.calls));
    assert sizes[at + 0] == Size([f][0]);
    PrunedCalls(f.calls, frames, marks, sizes, at + 1);
    PrunesToParent(Annotate(f, frames, at), frames, marks, sizes, at, at + Size(f));
  }

  lemma {:induction false} PrunedCalls(calls: seq<CallFrame>, frames: seq<FrameDTO>, marks: seq<bool>, sizes: seq<nat>,
                                       at: nat)
    requires Marks(frames, marks) && |frames| == |sizes| && SizesFit(sizes) && SizesMatch(sizes, at, PreorderAll(calls))
    ensures PrunesTo(AnnotateCalls(calls, frames, at), frames, marks, sizes, at, at + SizeAll(calls))
    decreases calls, 0
  {
    hide PrunesTo, SizesFit, Annotate;
    if calls == [] {
      PrunesToNothing(frames, marks, sizes, at);
    } else {
      var n := Size(calls[0]);
      SizesMatchSplit(sizes, at, Preorder(calls[0]), PreorderAll(calls[1..]));
      PrunedTree(calls[0], frames, marks, sizes, at);
      PrunedCalls(calls[1..], frames, marks, sizes, at + n);
      var head, rest, end := Annotate(calls[0], frames, at), AnnotateCalls(calls[1..], frames, at + n), at + SizeAll(calls);
      PrunesToJoin(head, rest, frames, marks, sizes, at, at + n, end);
      AnnotateCallsCons(calls, frames, at);
    }
  }

  function MarksOf(frames: seq<FrameDTO>): seq<bool> {
    seq(|frames|, i requires 0 <= i < |frames| => Important(frames[i]))
  }

  /** The call tree, pruned, holds exactly the frames that are important or have an important frame
      somewhere below, in call order. */
  lemma {:induction false} PrunedTreeExact(root: CallFrame, listed: seq<FrameDTO>)
    requires Describes(listed, FlattenTrace(root))
    ensures
      var sizes := TraceEvidence.Sizes(FlattenTrace(root));
      && SizesFit(sizes)
      && AllNodeFrames(PruneAll([Annotate(root, listed, 0)], false)) == Kept(listed, MarksOf(listed), sizes, 0, |listed|)
  {
    TraceSizes(root);
    PrunedTree(root, listed, MarksOf(listed), TraceEvidence.Sizes(FlattenTrace(root)), 0);
  }

  /** The pruned view shows exactly the frames that are important or have an important frame
      somewhere below, in call order. */
  lemma {:induction false} PrunedViewExact(root: CallFrame, frames: seq<FrameDTO>, listed: seq<FrameDTO>)
    requires multiset(listed) == multiset(frames) && Describes(listed, FlattenTrace(root))
    ensures Rebuildable(frames)
    ensures
      var sizes := TraceEvidence.Sizes(FlattenTrace(root));
      && SizesFit(sizes)
      && AllNodeFrames(Forest(frames, false)) == Kept(listed, MarksOf(listed), sizes, 0, |listed|)
  {
    hide *;
    TraceForest(root, frames, listed, false);
    PrunedTreeExact(root, listed);
  }

  lemma {:induction false} TraceSizes(root: CallFrame)
    ensures SizesFit(TraceEvidence.Sizes(FlattenTrace(root))) && SizesMatch(TraceEvidence.Sizes(FlattenTrace(root)), 0, Preorder(root))
  {
    var sizes := TraceEvidence.Sizes(FlattenTrace(root));
    forall j | 0 <= j < Size(root) ensures sizes[0 + j] == Size(Preorder(root)[j]) && j + sizes[j] <= |sizes| {
      FlattenKeepsOrder(root, ROOT_ID, "", 0, 0, j);
      RunFits(root, j);
    }
  }
}
