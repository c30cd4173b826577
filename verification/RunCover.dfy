/** Unions of pre-order runs. A forest is given by the length of the run below each position;
    some positions are roots. Joining the runs of the roots and dropping repeats lists exactly
    the positions below a root, in order. */
module RunCover {

  /** The loop of dedupeStrings from where `kept` has been kept so far: first occurrences,
      empty strings dropped. */
  function DedupeInto(kept: seq<string>, values: seq<string>): seq<string>
    decreases values
  {
    if values == [] then kept
    else if values[0] == "" || values[0] in kept then DedupeInto(kept, values[1..])
    else DedupeInto(kept + [values[0]], values[1..])
  }

  function Dedupe(values: seq<string>): seq<string> {
    DedupeInto([], values)
  }

  lemma {:induction false} DedupeAppend(kept: seq<string>, a: seq<string>, b: seq<string>)
    ensures DedupeInto(kept, a + b) == DedupeInto(DedupeInto(kept, a), b)
    decreases a
  {
    if a == [] {
      assert a + b == b;
    } else {
      assert (a + b)[1..] == a[1..] + b;
      DedupeAppend(if a[0] == "" || a[0] in kept then kept else kept + [a[0]], a[1..], b);
    }
  }

  lemma {:induction false} DedupeRepeats(kept: seq<string>, values: seq<string>)
    requires forall x :: 0 <= x < |values| ==> values[x] in kept
    ensures DedupeInto(kept, values) == kept
  {
    if values != [] {
      DedupeRepeats(kept, values[1..]);
    }
  }

  lemma {:induction false} DedupeFresh(kept: seq<string>, values: seq<string>)
    requires forall x :: 0 <= x < |values| ==> values[x] !in kept && values[x] != ""
    requires forall x, y :: 0 <= x < y < |values| ==> values[x] != values[y]
    ensures DedupeInto(kept, values) == kept + values
    decreases values
  {
    if values != [] {
      DedupeFresh(kept + [values[0]], values[1..]);
      assert kept + [values[0]] + values[1..] == kept + values;
    }
  }

  /** Runs stay inside the list and nest or are apart; ids are distinct. */
  ghost predicate Laminar(ids: seq<string>, sizes: seq<nat>) {
    && |sizes| == |ids|
    && (forall i :: 0 <= i < |ids| ==> sizes[i] > 0 && i + sizes[i] <= |ids| && ids[i] != "")
    && (forall i, j :: 0 <= i <= j < |ids| && j < i + sizes[i] ==> j + sizes[j] <= i + sizes[i])
    && (forall i, j :: 0 <= i < j < |ids| ==> ids[i] != ids[j])
  }

  /** Position j lies in the run of some root before m. */
  ghost predicate Covered(sizes: seq<nat>, roots: seq<bool>, m: nat, j: nat)
    requires m <= |sizes| == |roots|
  {
    exists i :: 0 <= i < m && roots[i] && i <= j < i + sizes[i]
  }

  /** The ids of the covered positions before k, in order. */
  ghost function CoveredIDs(ids: seq<string>, sizes: seq<nat>, roots: seq<bool>, m: nat, k: nat): seq<string>
    requires m <= |sizes| == |roots| && k <= |ids|
  {
    if k == 0 then [] else
      CoveredIDs(ids, sizes, roots, m, k - 1) + if Covered(sizes, roots, m, k - 1) then [ids[k - 1]] else []
  }

  lemma {:induction false} CoveredIDsElements(ids: seq<string>, sizes: seq<nat>, roots: seq<bool>, m: nat, k: nat, s: string)
    requires m <= |sizes| == |roots| && k <= |ids|
    ensures s in CoveredIDs(ids, sizes, roots, m, k)
       <==> exists j :: 0 <= j < k && Covered(sizes, roots, m, j) && ids[j] == s
  {
    if k > 0 {
      CoveredIDsElements(ids, sizes, roots, m, k - 1, s);
    }
  }

  /** Entry a of the list of covered ids is the id of a position before k. */
  lemma {:induction false} CoveredPosition(ids: seq<string>, sizes: seq<nat>, roots: seq<bool>, m: nat, k: nat, a: nat)
    returns (i: nat)
    requires m <= |sizes| == |roots| && k <= |ids| && a < |CoveredIDs(ids, sizes, roots, m, k)|
    ensures i < k && ids[i] == CoveredIDs(ids, sizes, roots, m, k)[a]
  {
    hide Covered;
    if a < |CoveredIDs(ids, sizes, roots, m, k - 1)| {
      i := CoveredPosition(ids, sizes, roots, m, k - 1, a);
    } else {
      i := k - 1;
    }
  }

  /** Later entries of the list of covered ids are ids of later positions. */
  lemma {:induction false} CoveredIncrease(ids: seq<string>, sizes: seq<nat>, roots: seq<bool>, m: nat, k: nat, a: nat, b: nat)
    returns (i: nat, j: nat)
    requires m <= |sizes| == |roots| && k <= |ids| && a < b < |CoveredIDs(ids, sizes, roots, m, k)|
    ensures i < j < k && ids[i] == CoveredIDs(ids, sizes, roots, m, k)[a] && ids[j] == CoveredIDs(ids, sizes, roots, m, k)[b]
  {
    hide Covered;
    if b < |CoveredIDs(ids, sizes, roots, m, k - 1)| {
      i, j := CoveredIncrease(ids, sizes, roots, m, k - 1, a, b);
    } else {
      i := CoveredPosition(ids, sizes, roots, m, k - 1, a);
      j := k - 1;
    }
  }

  lemma {:induction false} CoveredAt(ids: seq<string>, sizes: seq<nat>, roots: seq<bool>, j: nat)
    requires Laminar(ids, sizes) && |roots| == |ids| && j < |ids|
    ensures ids[j] in CoveredIDs(ids, sizes, roots, |ids|, |ids|) <==> Covered(sizes, roots, |ids|, j)
  {
    CoveredIDsElements(ids, sizes, roots, |ids|, |ids|, ids[j]);
  }

  /** A new root is no news for position j unless j is in its run. */
  lemma {:induction false} CoveredStep(ids: seq<string>, sizes: seq<nat>, roots: seq<bool>, m: nat, j: nat)
    requires Laminar(ids, sizes) && |roots| == |ids| && m < |ids|
    ensures Covered(sizes, roots, m + 1, j) <==> Covered(sizes, roots, m, j) || (roots[m] && m <= j < m + sizes[m])
  {
  }

  /** Nothing after an uncovered position m is covered by the roots before m. */
  lemma {:induction false} NotCoveredBeyond(ids: seq<string>, sizes: seq<nat>, roots: seq<bool>, m: nat, j: nat)
    requires Laminar(ids, sizes) && |roots| == |ids| && m <= j < |ids| && !Covered(sizes, roots, m, m)
    ensures !Covered(sizes, roots, m, j)
  {
  }

  lemma {:induction false} CoveredRun(ids: seq<string>, sizes: seq<nat>, roots: seq<bool>, m: nat, j: nat)
    requires Laminar(ids, sizes) && |roots| == |ids| && m < |ids| && m <= j < m + sizes[m]
    requires Covered(sizes, roots, m, m)
    ensures Covered(sizes, roots, m, j)
  {
    var i :| 0 <= i < m && roots[i] && i <= m < i + sizes[i];
    assert m + sizes[m] <= i + sizes[i];
  }

  lemma {:induction false} CoveredSame(ids: seq<string>, sizes: seq<nat>, roots: seq<bool>, m: nat, k: nat)
    requires Laminar(ids, sizes) && |roots| == |ids| && m < |ids| && k <= |ids|
    requires k <= m || !roots[m] || Covered(sizes, roots, m, m)
    ensures CoveredIDs(ids, sizes, roots, m + 1, k) == CoveredIDs(ids, sizes, roots, m, k)
  {
    hide Covered;
    if k > 0 {
      CoveredSame(ids, sizes, roots, m, k - 1);
      CoveredStep(ids, sizes, roots, m, k - 1);
      if roots[m] && m <= k - 1 < m + sizes[m] {
        CoveredRun(ids, sizes, roots, m, k - 1);
      }
    }
  }

  lemma {:induction false} CoveredStops(ids: seq<string>, sizes: seq<nat>, roots: seq<bool>, m: nat, k: nat)
    requires Laminar(ids, sizes) && |roots| == |ids| && m < |ids| && m <= k <= |ids|
    requires !Covered(sizes, roots, m, m)
    ensures CoveredIDs(ids, sizes, roots, m, k) == CoveredIDs(ids, sizes, roots, m, m)
  {
    if k > m {
      CoveredStops(ids, sizes, roots, m, k - 1);
      NotCoveredBeyond(ids, sizes, roots, m, k - 1);
    }
  }

  lemma {:induction false} CoveredWithin(ids: seq<string>, sizes: seq<nat>, roots: seq<bool>, m: nat, k: nat)
    requires Laminar(ids, sizes) && |roots| == |ids| && m < |ids| && m <= k <= m + sizes[m] && roots[m]
    ensures CoveredIDs(ids, sizes, roots, m + 1, k) == CoveredIDs(ids, sizes, roots, m, m) + ids[m..k]
  {
    hide Covered;
    if k == m {
      CoveredSame(ids, sizes, roots, m, m);
    } else {
      CoveredWithin(ids, sizes, roots, m, k - 1);
      CoveredStep(ids, sizes, roots, m, k - 1);
      assert ids[m..k] == ids[m..k - 1] + [ids[k - 1]];
    }
  }

  lemma {:induction false} CoveredAfter(ids: seq<string>, sizes: seq<nat>, roots: seq<bool>, m: nat, k: nat)
    requires Laminar(ids, sizes) && |roots| == |ids| && m < |ids| && m + sizes[m] <= k <= |ids| && roots[m]
    requires !Covered(sizes, roots, m, m)
    ensures CoveredIDs(ids, sizes, roots, m + 1, k) == CoveredIDs(ids, sizes, roots, m, m) + ids[m..m + sizes[m]]
  {
    if k == m + sizes[m] {
      CoveredWithin(ids, sizes, roots, m, k);
    } else {
      CoveredAfter(ids, sizes, roots, m, k - 1);
      CoveredStep(ids, sizes, roots, m, k - 1);
      NotCoveredBeyond(ids, sizes, roots, m, k - 1);
    }
  }

  lemma {:induction false} RunListed(ids: seq<string>, sizes: seq<nat>, roots: seq<bool>, m: nat, x: nat)
    requires Laminar(ids, sizes) && |roots| == |ids| && m < |ids| && m <= x < m + sizes[m]
    requires Covered(sizes, roots, m, m)
    ensures ids[x] in CoveredIDs(ids, sizes, roots, m, |ids|)
  {
    CoveredRun(ids, sizes, roots, m, x);
    CoveredIDsElements(ids, sizes, roots, m, |ids|, ids[x]);
  }

  lemma {:induction false} RunNotListed(ids: seq<string>, sizes: seq<nat>, roots: seq<bool>, m: nat, x: nat)
    requires Laminar(ids, sizes) && |roots| == |ids| && m <= x < |ids|
    requires !Covered(sizes, roots, m, m)
    ensures ids[x] !in CoveredIDs(ids, sizes, roots, m, |ids|)
  {
    CoveredStops(ids, sizes, roots, m, |ids|);
    CoveredIDsElements(ids, sizes, roots, m, m, ids[x]);
  }

  lemma {:induction false} AddRoot(ids: seq<string>, sizes: seq<nat>, roots: seq<bool>, m: nat)
    requires Laminar(ids, sizes) && |roots| == |ids| && m < |ids| && roots[m]
    ensures DedupeInto(CoveredIDs(ids, sizes, roots, m, |ids|), ids[m..m + sizes[m]])
         == CoveredIDs(ids, sizes, roots, m + 1, |ids|)
  {
    var kept := CoveredIDs(ids, sizes, roots, m, |ids|);
    if Covered(sizes, roots, m, m) {
      CoveredSame(ids, sizes, roots, m, |ids|);
      forall x | m <= x < m + sizes[m] ensures ids[x] in kept {
        RunListed(ids, sizes, roots, m, x);
      }
      DedupeRepeats(kept, ids[m..m + sizes[m]]);
    } else {
      forall x | m <= x < m + sizes[m] ensures ids[x] !in kept {
        RunNotListed(ids, sizes, roots, m, x);
      }
      DedupeFresh(kept, ids[m..m + sizes[m]]);
      CoveredAfter(ids, sizes, roots, m, |ids|);
      CoveredStops(ids, sizes, roots, m, |ids|);
    }
  }

  /** The runs of the roots before m, joined in order. */
  function JoinedRuns(ids: seq<string>, sizes: seq<nat>, roots: seq<bool>, m: nat): seq<string>
    requires m <= |ids| == |sizes| == |roots|
    requires forall i :: 0 <= i < |ids| ==> i + sizes[i] <= |ids|
  {
    if m == 0 then [] else
      JoinedRuns(ids, sizes, roots, m - 1) + if roots[m - 1] then ids[m - 1..m - 1 + sizes[m - 1]] else []
  }

  lemma {:induction false} JoinedRunsInOrder(ids: seq<string>, sizes: seq<nat>, roots: seq<bool>, m: nat)
    requires Laminar(ids, sizes) && |roots| == |ids| && m <= |ids|
    ensures Dedupe(JoinedRuns(ids, sizes, roots, m)) == CoveredIDs(ids, sizes, roots, m, |ids|)
  {
    if m == 0 {
      NothingCovered(ids, sizes, roots, |ids|);
    } else {
      JoinedRunsInOrder(ids, sizes, roots, m - 1);
      var joined := JoinedRuns(ids, sizes, roots, m - 1);
      if roots[m - 1] {
        DedupeAppend([], joined, ids[m - 1..m - 1 + sizes[m - 1]]);
        AddRoot(ids, sizes, roots, m - 1);
      } else {
        assert joined + [] == joined;
        CoveredSame(ids, sizes, roots, m - 1, |ids|);
      }
    }
  }

  lemma {:induction false} NothingCovered(ids: seq<string>, sizes: seq<nat>, roots: seq<bool>, k: nat)
    requires |sizes| == |roots| && k <= |ids|
    ensures CoveredIDs(ids, sizes, roots, 0, k) == []
  {
    if k > 0 {
      NothingCovered(ids, sizes, roots, k - 1);
    }
  }
}
