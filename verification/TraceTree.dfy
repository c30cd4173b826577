/** Call traces and their flattening (api/service/trace_summary.go): a call tree becomes a
    pre-order list whose frames carry dotted string ids such as "trace-root.0.12". */
module TraceTree {
  import opened Text

  datatype CallFrame = CallFrame(
    kind: string, from: string, to: string, input: string, output: string,
    error: string, revertReason: string, calls: seq<CallFrame>)

  // ---- flattening ----

  datatype FlatFrame = FlatFrame(frame: CallFrame, id: string, parentID: string, depth: nat, callIndex: nat)

  const ROOT_ID := "trace-root"

  function ChildID(parent: string, childIndex: nat): string {
    parent + "." + Decimal(childIndex)
  }

  function Size(f: CallFrame): nat
    decreases f, 1
  {
    1 + SizeAll(f.calls)
  }

  function SizeAll(calls: seq<CallFrame>): nat
    decreases calls, 0
  {
    if calls == [] then 0 else Size(calls[0]) + SizeAll(calls[1..])
  }

  /** The pre-order list of the frames at and below f, the first one numbered `index`. */
  function Flatten(f: CallFrame, id: string, parent: string, depth: nat, index: nat): (out: seq<FlatFrame>)
    ensures |out| == Size(f)
    ensures out[0] == FlatFrame(f, id, parent, depth, index)
    decreases f, 1
  {
    [FlatFrame(f, id, parent, depth, index)] + FlattenCalls(f.calls, 0, id, depth + 1, index + 1)
  }

  function FlattenCalls(calls: seq<CallFrame>, childIndex: nat, parent: string, depth: nat, index: nat): (out: seq<FlatFrame>)
    ensures |out| == SizeAll(calls)
    decreases calls, 0
  {
    if calls == [] then [] else
      Flatten(calls[0], ChildID(parent, childIndex), parent, depth, index)
      + FlattenCalls(calls[1..], childIndex + 1, parent, depth, index + Size(calls[0]))
  }

  function FlattenTrace(root: CallFrame): seq<FlatFrame> {
    Flatten(root, ROOT_ID, "", 0, 0)
  }

  /** The recursive closure of flattenTraceFrames: each visit appends to the shared list, and a
      frame's call index is the length of the list at that moment. */
  method Walk(f: CallFrame, id: string, parent: string, depth: nat, out: seq<FlatFrame>) returns (r: seq<FlatFrame>)
    ensures r == out + Flatten(f, id, parent, depth, |out|)
    decreases f
  {
    r := out + [FlatFrame(f, id, parent, depth, |out|)];
    for childIndex := 0 to |f.calls|
      invariant r + FlattenCalls(f.calls[childIndex..], childIndex, id, depth + 1, |r|)
             == out + Flatten(f, id, parent, depth, |out|)
    {
      ghost var rest := f.calls[childIndex..];
      assert rest[0] == f.calls[childIndex] && rest[1..] == f.calls[childIndex + 1..];
      ghost var before := r;
      r := Walk(f.calls[childIndex], ChildID(id, childIndex), id, depth + 1, r);
      assert before + FlattenCalls(rest, childIndex, id, depth + 1, |before|)
          == r + FlattenCalls(rest[1..], childIndex + 1, id, depth + 1, |r|);
    }
  }

  method FlattenTraceFrames(root: CallFrame) returns (out: seq<FlatFrame>)
    ensures out == FlattenTrace(root)
  {
    out := Walk(root, ROOT_ID, "", 0, []);
  }

  // ---- what the list looks like ----

  lemma {:induction false} SliceOfConcat<T>(a: seq<T>, b: seq<T>, i: nat, n: nat)
    requires i + n <= |a| + |b|
    ensures i + n <= |a| ==> (a + b)[i..i + n] == a[i..i + n]
    ensures i >= |a| ==> (a + b)[i..i + n] == b[i - |a|..i - |a| + n]
  {
  }

  /** The subtree of every frame is one contiguous run of the list: the flattening of that frame. */
  lemma {:induction false} SubtreeIsRun(f: CallFrame, id: string, parent: string, depth: nat, index: nat, i: nat)
    requires i < Size(f)
    ensures
      var out := Flatten(f, id, parent, depth, index);
      var at := out[i];
      && at.callIndex == index + i
      && depth <= at.depth
      && i + Size(at.frame) <= |out|
      && out[i..i + Size(at.frame)] == Flatten(at.frame, at.id, at.parentID, at.depth, at.callIndex)
    decreases f, 1
  {
    var out := Flatten(f, id, parent, depth, index);
    if i == 0 {
      assert out[0..|out|] == out;
    } else {
      var rest := FlattenCalls(f.calls, 0, id, depth + 1, index + 1);
      SubtreeIsRunCalls(f.calls, 0, id, depth + 1, index + 1, i - 1);
      assert out[i..i + Size(out[i].frame)] == rest[i - 1..i - 1 + Size(rest[i - 1].frame)];
    }
  }

  lemma {:induction false} SubtreeIsRunCalls(calls: seq<CallFrame>, k: nat, parent: string, depth: nat, index: nat, i: nat)
    requires i < SizeAll(calls)
    ensures
      var out := FlattenCalls(calls, k, parent, depth, index);
      var at := out[i];
      && at.callIndex == index + i
      && depth <= at.depth
      && i + Size(at.frame) <= |out|
      && out[i..i + Size(at.frame)] == Flatten(at.frame, at.id, at.parentID, at.depth, at.callIndex)
    decreases calls, 0
  {
    hide ChildID, Flatten;
    var head := Flatten(calls[0], ChildID(parent, k), parent, depth, index);
    var tail := FlattenCalls(calls[1..], k + 1, parent, depth, index + |head|);
    assert FlattenCalls(calls, k, parent, depth, index) == head + tail;
    hide FlattenCalls;
    if i < |head| {
      SubtreeIsRun(calls[0], ChildID(parent, k), parent, depth, index, i);
      SliceOfConcat(head, tail, i, Size(head[i].frame));
    } else {
      SubtreeIsRunCalls(calls[1..], k + 1, parent, depth, index + |head|, i - |head|);
      SliceOfConcat(head, tail, i, Size(tail[i - |head|].frame));
    }
  }

  lemma {:induction false} RunFits(root: CallFrame, i: nat)
    requires i < Size(root)
    ensures i + Size(FlattenTrace(root)[i].frame) <= Size(root)
  {
    SubtreeIsRun(root, ROOT_ID, "", 0, 0, i);
  }

  /** The frames listed right after frame i are those of its calls. */
  lemma {:induction false} CallsFollow(root: CallFrame, i: nat, j: nat)
    requires i < Size(root) && j < SizeAll(FlattenTrace(root)[i].frame.calls)
    ensures
      var out := FlattenTrace(root);
      && i + 1 + j < |out|
      && out[i + 1 + j] == FlattenCalls(out[i].frame.calls, 0, out[i].id, out[i].depth + 1, i + 1)[j]
  {
    SubtreeIsRun(root, ROOT_ID, "", 0, 0, i);
    var out := FlattenTrace(root);
    assert out[i..i + Size(out[i].frame)][1 + j] == out[i + 1 + j];
  }

  // ---- the string-prefix test ----

  /** The test of collectSubtreeFrameIDs. */
  predicate Under(root: string, id: string) {
    id == root || root + "." <= id
  }

  function UpToDot(s: string): string {
    if s == "" || s[0] == '.' then "" else [s[0]] + UpToDot(s[1..])
  }

  lemma {:induction false} UpToDotOfDigits(digits: string, rest: string)
    requires AllDigits(digits) && (rest == "" || rest[0] == '.')
    ensures UpToDot(digits + rest) == digits
  {
    if digits == "" {
      assert digits + rest == rest;
    } else {
      assert IsDigit(digits[0]);
      assert (digits + rest)[1..] == digits[1..] + rest;
      UpToDotOfDigits(digits[1..], rest);
    }
  }

  /** An id under the k-th child of `parent` spells k right after the parent's id. */
  lemma {:induction false} UnderChildSpellsIndex(parent: string, k: nat, id: string)
    requires Under(ChildID(parent, k), id)
    ensures |id| > |parent| && UpToDot(id[|parent| + 1..]) == Decimal(k) && Under(parent, id)
  {
    var child := ChildID(parent, k);
    var rest := id[|child|..];
    assert child <= id;
    assert id == child + rest;
    assert id[|parent| + 1..] == Decimal(k) + rest;
    assert rest == "" || rest[0] == '.' by {
      if id != child {
        assert id[|child|] == (child + ".")[|child|];
      }
    }
    UpToDotOfDigits(Decimal(k), rest);
    assert parent + "." <= child;
  }

  lemma {:induction false} UnderTransitive(a: string, b: string, c: string)
    requires Under(a, b) && Under(b, c)
    ensures Under(a, c)
  {
    if a != b && b != c {
      assert b <= c && a + "." <= b;
    }
  }

  lemma {:induction false} UnderAntisymmetric(a: string, b: string)
    requires Under(a, b) && Under(b, a)
    ensures a == b
  {
  }

  /** Ids below distinct children of one parent are unrelated. */
  lemma {:induction false} SiblingsApart(parent: string, k: nat, l: nat, x: string, y: string)
    requires k != l && Under(ChildID(parent, k), x) && Under(ChildID(parent, l), y)
    ensures !Under(x, y)
  {
    if Under(x, y) {
      UnderTransitive(ChildID(parent, k), x, y);
      UnderChildSpellsIndex(parent, k, y);
      UnderChildSpellsIndex(parent, l, y);
      DecimalInjective(k, l);
    }
  }

  /** Every id of a flattened subtree is under the id it was given, and every id but the first is
      its parent id with one more segment, the parent id being again in the subtree. */
  lemma {:induction false} IdsUnder(f: CallFrame, id: string, parent: string, depth: nat, index: nat, j: nat)
    requires j < Size(f)
    ensures
      var out := Flatten(f, id, parent, depth, index);
      && Under(id, out[j].id)
      && (j > 0 ==> out[j].id != id && out[j].depth > depth && Under(id, out[j].parentID)
                    && exists k :: out[j].id == ChildID(out[j].parentID, k))
    decreases f, 1
  {
    if j > 0 {
      var l := IdsUnderCalls(f.calls, 0, id, depth + 1, index + 1, j - 1);
      UnderChildSpellsIndex(id, l, FlattenCalls(f.calls, 0, id, depth + 1, index + 1)[j - 1].id);
    }
  }

  /** Each id of a flattened call list is under exactly one of the children; which one is returned. */
  lemma {:induction false} IdsUnderCalls(calls: seq<CallFrame>, k: nat, parent: string, depth: nat, index: nat, j: nat)
    returns (l: nat)
    requires j < SizeAll(calls)
    ensures
      var out := FlattenCalls(calls, k, parent, depth, index);
      && k <= l < k + |calls|
      && Under(ChildID(parent, l), out[j].id)
      && out[j].depth >= depth
      && Under(parent, out[j].parentID)
      && (j < Size(calls[0]) <==> l == k)
      && exists m :: out[j].id == ChildID(out[j].parentID, m)
    decreases calls, 0
  {
    var head := Flatten(calls[0], ChildID(parent, k), parent, depth, index);
    if j < |head| {
      l := k;
      IdsUnder(calls[0], ChildID(parent, k), parent, depth, index, j);
      if j > 0 {
        UnderChildSpellsIndex(parent, k, head[j].parentID);
      } else {
        assert head[0].id == ChildID(head[0].parentID, k);
      }
    } else {
      l := IdsUnderCalls(calls[1..], k + 1, parent, depth, index + |head|, j - |head|);
    }
  }

  /** The prefix test is exact: the ids it accepts for the i-th frame are those of the run that
      starts at i and is as long as the i-th frame's subtree. */
  lemma {:induction false} PrefixTestExact(f: CallFrame, id: string, parent: string, depth: nat, index: nat, i: nat, j: nat)
    requires i < Size(f) && j < Size(f)
    ensures
      var out := Flatten(f, id, parent, depth, index);
      Under(out[i].id, out[j].id) <==> i <= j < i + Size(out[i].frame)
    decreases f, 1
  {
    IdsUnder(f, id, parent, depth, index, i);
    IdsUnder(f, id, parent, depth, index, j);
    var out := Flatten(f, id, parent, depth, index);
    if i > 0 {
      if j == 0 {
        if Under(out[i].id, id) {
          UnderAntisymmetric(id, out[i].id);
        }
      } else {
        PrefixTestExactCalls(f.calls, 0, id, depth + 1, index + 1, i - 1, j - 1);
      }
    }
  }

  lemma {:induction false} PrefixTestExactCalls(calls: seq<CallFrame>, k: nat, parent: string, depth: nat, index: nat,
                                                i: nat, j: nat)
    requires i < SizeAll(calls) && j < SizeAll(calls)
    ensures
      var out := FlattenCalls(calls, k, parent, depth, index);
      Under(out[i].id, out[j].id) <==> i <= j < i + Size(out[i].frame)
    decreases calls, 0
  {
    var out := FlattenCalls(calls, k, parent, depth, index);
    var n := Size(calls[0]);
    if i < n && j < n {
      PrefixTestExact(calls[0], ChildID(parent, k), parent, depth, index, i, j);
    } else if i >= n && j >= n {
      PrefixTestExactCalls(calls[1..], k + 1, parent, depth, index + n, i - n, j - n);
    } else {
      var li := IdsUnderCalls(calls, k, parent, depth, index, i);
      var lj := IdsUnderCalls(calls, k, parent, depth, index, j);
      SiblingsApart(parent, li, lj, out[i].id, out[j].id);
      if i < n {
        SubtreeIsRun(calls[0], ChildID(parent, k), parent, depth, index, i);
      }
    }
  }

  /** The i-th frame heads a run as long as its subtree, and ids show it: the prefix test of its id
      finds that run and nothing else. */
  ghost predicate RunAt(out: seq<FlatFrame>, i: nat)
    requires i < |out|
  {
    && out[i].callIndex == i
    && out[i].id != ""
    && i + Size(out[i].frame) <= |out|
    && (forall j :: 0 <= j < |out| ==> (Under(out[i].id, out[j].id) <==> i <= j < i + Size(out[i].frame)))
    && (forall j :: 0 <= j < |out| && j != i ==> out[j].id != out[i].id)
  }

  ghost predicate PreorderIDs(out: seq<FlatFrame>) {
    forall i :: 0 <= i < |out| ==> RunAt(out, i)
  }

  lemma {:induction false} FlattenIsPreorder(root: CallFrame)
    ensures PreorderIDs(FlattenTrace(root))
  {
    var out := FlattenTrace(root);
    forall i | 0 <= i < |out| ensures RunAt(out, i) {
      SubtreeIsRun(root, ROOT_ID, "", 0, 0, i);
      IdsUnder(root, ROOT_ID, "", 0, 0, i);
      forall j | 0 <= j < |out|
        ensures Under(out[i].id, out[j].id) <==> i <= j < i + Size(out[i].frame)
        ensures j != i ==> out[j].id != out[i].id
      {
        PrefixTestExact(root, ROOT_ID, "", 0, 0, i, j);
        PrefixTestExact(root, ROOT_ID, "", 0, 0, j, i);
      }
    }
  }
}
