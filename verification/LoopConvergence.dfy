/** The scan loop together with the stores its runs write: after any failures and restarts, what the
    stores say about the blocks the cursor has passed is what one clean pass over the saved ranges
    would have left. */
module LoopConvergence {
  import opened ScanTypes
  import opened ProtocolRunner
  import opened RunConvergence
  import opened RunLocality
  import L = RunLoop

  /** A transaction of the chain and what the extractor makes of it. */
  datatype Observed = Observed(hash: string, block: nat, candidates: seq<Candidate>, legs: seq<Leg>)

  datatype Feed = Feed(skipTxFetch: bool, txs: seq<Observed>, verify: (Candidate, seq<Leg>) -> Outcome)

  function CountWithin(txs: seq<Observed>, from: nat, to: nat, k: nat): nat
    requires k <= |txs|
  {
    if k == 0 then 0 else CountWithin(txs, from, to, k - 1) + if from <= txs[k - 1].block <= to then 1 else 0
  }

  function CandidatesWithin(txs: seq<Observed>, from: nat, to: nat, k: nat): (out: seq<Candidate>)
    requires k <= |txs|
    ensures forall c :: c in out <==> exists i :: 0 <= i < k && from <= txs[i].block <= to && c in txs[i].candidates
  {
    if k == 0 then [] else
      CandidatesWithin(txs, from, to, k - 1) + if from <= txs[k - 1].block <= to then txs[k - 1].candidates else []
  }

  function LegsWithin(txs: seq<Observed>, from: nat, to: nat, k: nat): (out: seq<Leg>)
    requires k <= |txs|
    ensures forall leg :: leg in out <==> exists i :: 0 <= i < k && from <= txs[i].block <= to && leg in txs[i].legs
  {
    if k == 0 then [] else
      LegsWithin(txs, from, to, k - 1) + if from <= txs[k - 1].block <= to then txs[k - 1].legs else []
  }

  /** The run over a range of blocks. */
  function TaskFor(feed: Feed, from: nat, to: nat): Task {
    var txs := feed.txs;
    Task(from, to, feed.skipTxFetch, CountWithin(txs, from, to, |txs|), true, CandidatesWithin(txs, from, to, |txs|),
         LegsWithin(txs, from, to, |txs|), feed.verify)
  }

  ghost predicate InRange(feed: Feed, from: nat, to: nat, tx: string) {
    exists i :: 0 <= i < |feed.txs| && from <= feed.txs[i].block <= to && feed.txs[i].hash == tx
  }

  /** Candidates and legs of a transaction carry its hash; candidates are numbered apart and every leg
      belongs to one. Transactions have distinct hashes, and verifying twice changes nothing. */
  ghost predicate WellFed(feed: Feed) {
    && (forall i, j :: 0 <= i < j < |feed.txs| ==> feed.txs[i].hash != feed.txs[j].hash)
    && (forall i, c :: 0 <= i < |feed.txs| && c in feed.txs[i].candidates ==> c.key.tx == feed.txs[i].hash)
    && (forall i, leg :: 0 <= i < |feed.txs| && leg in feed.txs[i].legs ==> exists c :: c in feed.txs[i].candidates && c.key == leg.key)
    && (forall i, a, b :: 0 <= i < |feed.txs| && 0 <= a < b < |feed.txs[i].candidates| ==>
          feed.txs[i].candidates[a].key != feed.txs[i].candidates[b].key)
    && Stable(feed.verify)
  }

  // ---- tasks over ranges ----

  ghost predicate KeysApart(candidates: seq<Candidate>) {
    forall i, j :: 0 <= i < j < |candidates| ==> candidates[i].key != candidates[j].key
  }

  lemma {:induction false} ConcatApart(a: seq<Candidate>, b: seq<Candidate>)
    requires KeysApart(a) && KeysApart(b) && forall c, d :: c in a && d in b ==> c.key.tx != d.key.tx
    ensures KeysApart(a + b)
  {
    var out := a + b;
    forall i, j | 0 <= i < j < |out| ensures out[i].key != out[j].key {
      if i < |a| <= j {
        assert a[i] in a && b[j - |a|] in b;
      }
    }
  }

  lemma {:induction false} CandidatesApart(feed: Feed, from: nat, to: nat, k: nat)
    requires WellFed(feed) && k <= |feed.txs|
    ensures KeysApart(CandidatesWithin(feed.txs, from, to, k))
  {
    hide Stable;
    if k > 0 {
      CandidatesApart(feed, from, to, k - 1);
      ConcatApart(CandidatesWithin(feed.txs, from, to, k - 1), feed.txs[k - 1].candidates);
    }
  }

  lemma {:induction false} TaskIsDistinct(feed: Feed, from: nat, to: nat)
    requires WellFed(feed)
    ensures DistinctCandidates(TaskFor(feed, from, to)) && Stable(TaskFor(feed, from, to).verify)
  {
    hide Stable;
    CandidatesApart(feed, from, to, |feed.txs|);
    assert TaskFor(feed, from, to).candidates == CandidatesWithin(feed.txs, from, to, |feed.txs|);
  }

  /** A candidate of one range whose transaction lies in another is a candidate of that too. */
  lemma {:induction false} CandidateMoves(feed: Feed, from: nat, to: nat, from2: nat, to2: nat, c: Candidate)
    requires WellFed(feed) && c in TaskFor(feed, from, to).candidates
    ensures InRange(feed, from, to, c.key.tx)
    ensures InRange(feed, from2, to2, c.key.tx) ==> c in TaskFor(feed, from2, to2).candidates
  {
    hide Stable;
    var i :| 0 <= i < |feed.txs| && from <= feed.txs[i].block <= to && c in feed.txs[i].candidates;
  }

  lemma {:induction false} LegMoves(feed: Feed, from: nat, to: nat, from2: nat, to2: nat, leg: Leg)
    requires WellFed(feed) && leg in TaskFor(feed, from, to).legs
    ensures IsCandidate(TaskFor(feed, from, to), leg.key)
    ensures InRange(feed, from2, to2, leg.key.tx) ==> leg in TaskFor(feed, from2, to2).legs
  {
    hide Stable, IsCandidate;
    var i :| 0 <= i < |feed.txs| && from <= feed.txs[i].block <= to && leg in feed.txs[i].legs;
    var c :| c in feed.txs[i].candidates && c.key == leg.key;
    assert c in TaskFor(feed, from, to).candidates;
    CandidateListed(TaskFor(feed, from, to), c);
  }

  lemma {:induction false} CandidateListed(t: Task, c: Candidate)
    requires c in t.candidates
    ensures IsCandidate(t, c.key)
  {
  }

  lemma {:induction false} KeyMoves(feed: Feed, from: nat, to: nat, from2: nat, to2: nat, key: Key)
    requires WellFed(feed) && IsCandidate(TaskFor(feed, from, to), key)
    ensures InRange(feed, from, to, key.tx) && key.tx in Txs(TaskFor(feed, from, to))
    ensures InRange(feed, from2, to2, key.tx) ==> IsCandidate(TaskFor(feed, from2, to2), key)
  {
    hide WellFed, InRange, TaskFor;
    var t := TaskFor(feed, from, to);
    var i :| 0 <= i < |t.candidates| && t.candidates[i].key == key;
    CandidateMoves(feed, from, to, from2, to2, t.candidates[i]);
    if InRange(feed, from2, to2, key.tx) {
      CandidateListed(TaskFor(feed, from2, to2), t.candidates[i]);
    }
  }

  lemma {:induction false} GroupMoves(feed: Feed, from: nat, to: nat, from2: nat, to2: nat, key: Key)
    requires WellFed(feed) && key in GroupKeys(TaskFor(feed, from, to).legs)
    ensures IsCandidate(TaskFor(feed, from, to), key)
    ensures InRange(feed, from2, to2, key.tx) ==> key in GroupKeys(TaskFor(feed, from2, to2).legs)
  {
    hide WellFed, InRange, TaskFor, IsCandidate;
    var leg :| leg in TaskFor(feed, from, to).legs && leg.key == key;
    LegMoves(feed, from, to, from2, to2, leg);
  }

  lemma {:induction false} TxMoves(feed: Feed, from: nat, to: nat, from2: nat, to2: nat, tx: string)
    requires WellFed(feed) && tx in Txs(TaskFor(feed, from, to))
    ensures InRange(feed, from, to, tx)
    ensures InRange(feed, from2, to2, tx) ==> tx in Txs(TaskFor(feed, from2, to2))
  {
    hide WellFed, InRange, TaskFor;
    var t := TaskFor(feed, from, to);
    var i :| 0 <= i < |t.candidates| && t.candidates[i].key.tx == tx;
    CandidateMoves(feed, from, to, from2, to2, t.candidates[i]);
    if InRange(feed, from2, to2, tx) {
      KeyMoves(feed, from2, to2, from2, to2, t.candidates[i].key) by {
        CandidateListed(TaskFor(feed, from2, to2), t.candidates[i]);
      }
    }
  }

  lemma {:induction false} NearMoves(feed: Feed, from: nat, to: nat, from2: nat, to2: nat, key: Key, a: seq<Leg>, b: seq<Leg>)
    requires WellFed(feed) && LegsNear(TaskFor(feed, from, to), key, 0, a, b) && InRange(feed, from2, to2, key.tx)
    ensures LegsNear(TaskFor(feed, from2, to2), key, 0, a, b)
  {
    hide WellFed, InRange, TaskFor;
    var t, u := TaskFor(feed, from, to), TaskFor(feed, from2, to2);
    if a != b {
      var i :| 0 <= i < |t.candidates| && t.candidates[i].key == key && VerifiedFrom(t, i, a, b);
      CandidateMoves(feed, from, to, from2, to2, t.candidates[i]);
      var j :| 0 <= j < |u.candidates| && u.candidates[j] == t.candidates[i];
      assert t.verify == u.verify by { SameVerify(feed, from, to, from2, to2); }
      assert VerifiedFrom(u, j, a, b);
    }
  }

  lemma {:induction false} SameVerify(feed: Feed, from: nat, to: nat, from2: nat, to2: nat)
    ensures TaskFor(feed, from, to).verify == TaskFor(feed, from2, to2).verify == feed.verify
  {
  }

  lemma {:induction false} NearOutside(feed: Feed, from: nat, to: nat, key: Key, a: seq<Leg>, b: seq<Leg>)
    requires WellFed(feed) && LegsNear(TaskFor(feed, from, to), key, 0, a, b) && !InRange(feed, from, to, key.tx)
    ensures a == b
  {
    hide WellFed, InRange, TaskFor;
    var t := TaskFor(feed, from, to);
    if a != b {
      var i :| 0 <= i < |t.candidates| && t.candidates[i].key == key && VerifiedFrom(t, i, a, b);
      CandidateMoves(feed, from, to, from, to, t.candidates[i]);
    }
  }

  // ---- what a run over a range does to stores that are near ----

  /** Two stores say the same about a transaction. */
  ghost predicate AgreeAt(a: Store, b: Store, tx: string) {
    && (forall key: Key :: key.tx == tx ==> SameAt(a.rows, b.rows, key) && LegsAt(a.legs, key) == LegsAt(b.legs, key))
    && SameAt(a.summaries, b.summaries, tx)
  }

  /** A run leaves transactions of other blocks alone. */
  lemma {:induction false} RunKeepsOthers(feed: Feed, from: nat, to: nat, store: Store, order: seq<Key>, budget: nat, tx: string)
    requires WellFed(feed) && GroupOrder(TaskFor(feed, from, to), order) && !InRange(feed, from, to, tx)
    ensures AgreeAt(store, RunOf(TaskFor(feed, from, to), store, order, budget).store, tx)
  {
    hide WellFed, InRange, TaskFor, RunOf, Stable, DistinctCandidates, GroupOrder, LegsNear, LegsAt, IsCandidate, GroupKeys, SameAt;
    var t := TaskFor(feed, from, to);
    var after := RunOf(t, store, order, budget).store;
    TaskIsDistinct(feed, from, to);
    NearItself(t, store);
    RunNear(t, store, store, order, budget);
    forall key: Key | key.tx == tx ensures SameAt(store.rows, after.rows, key) && LegsAt(store.legs, key) == LegsAt(after.legs, key) {
      if IsCandidate(t, key) {
        KeyMoves(feed, from, to, from, to, key);
      }
      if key in GroupKeys(t.legs) {
        GroupMoves(feed, from, to, from, to, key);
      }
      NearOutside(feed, from, to, key, LegsAt(store.legs, key), LegsAt(after.legs, key));
    }
    if tx in Txs(t) {
      TxMoves(feed, from, to, from, to, tx);
    }
  }

  ghost predicate Inside(feed: Feed, from: nat, to: nat, from2: nat, to2: nat) {
    forall tx :: InRange(feed, from, to, tx) ==> InRange(feed, from2, to2, tx)
  }

  lemma {:induction false} SmallerInside(feed: Feed, from: nat, to: nat, from2: nat, to2: nat)
    requires from2 <= from && to <= to2
    ensures Inside(feed, from, to, from2, to2)
  {
  }

  lemma {:induction false} LegsNearTwice(t: Task, key: Key, a: seq<Leg>, b: seq<Leg>, c: seq<Leg>)
    requires Stable(t.verify) && DistinctCandidates(t) && LegsNear(t, key, 0, a, b) && LegsNear(t, key, 0, b, c)
    ensures LegsNear(t, key, 0, a, c)
  {
    hide Stable;
    if a != b && b != c {
      var i :| 0 <= i < |t.candidates| && t.candidates[i].key == key && VerifiedFrom(t, i, a, b);
      var j :| 0 <= j < |t.candidates| && t.candidates[j].key == key && VerifiedFrom(t, j, b, c);
      assert i == j;
      Again(t, i, a, b);
    }
  }

  /** A run within a range, cut off or not, keeps stores near for the whole range. */
  lemma {:induction false} AttemptNear(feed: Feed, from: nat, to: nat, from2: nat, to2: nat, a: Store, b: Store, order: seq<Key>, budget: nat)
    requires WellFed(feed) && from2 <= from && to <= to2 && Near(TaskFor(feed, from2, to2), a, b)
    requires GroupOrder(TaskFor(feed, from, to), order)
    ensures Near(TaskFor(feed, from2, to2), a, RunOf(TaskFor(feed, from, to), b, order, budget).store)
  {
    hide WellFed, InRange, TaskFor, RunOf, Stable, DistinctCandidates, GroupOrder, LegsNear, LegsAt, IsCandidate, GroupKeys, SameAt;
    var t, u := TaskFor(feed, from, to), TaskFor(feed, from2, to2);
    var after := RunOf(t, b, order, budget).store;
    SmallerInside(feed, from, to, from2, to2);
    TaskIsDistinct(feed, from, to);
    TaskIsDistinct(feed, from2, to2);
    NearItself(t, b);
    RunNear(t, b, b, order, budget);
    forall key | !IsCandidate(u, key) ensures SameAt(a.rows, after.rows, key) {
      if IsCandidate(t, key) {
        KeyMoves(feed, from, to, from2, to2, key);
      }
      SameThrough(a.rows, b.rows, after.rows, key);
    }
    forall key | key !in GroupKeys(u.legs) ensures LegsNear(u, key, 0, LegsAt(a.legs, key), LegsAt(after.legs, key)) {
      if key in GroupKeys(t.legs) {
        GroupMoves(feed, from, to, from2, to2, key);
        KeyMoves(feed, from, to, from2, to2, key);
      }
      if InRange(feed, from, to, key.tx) {
        NearMoves(feed, from, to, from2, to2, key, LegsAt(b.legs, key), LegsAt(after.legs, key));
      } else {
        NearOutside(feed, from, to, key, LegsAt(b.legs, key), LegsAt(after.legs, key));
        EqualIsNear(u, key, 0, LegsAt(b.legs, key));
      }
      LegsNearTwice(u, key, LegsAt(a.legs, key), LegsAt(b.legs, key), LegsAt(after.legs, key));
    }
    forall tx | tx !in Txs(u) ensures SameAt(a.summaries, after.summaries, tx) {
      if tx in Txs(t) {
        TxMoves(feed, from, to, from2, to2, tx);
      }
      SameThrough(a.summaries, b.summaries, after.summaries, tx);
    }
  }

  /** The transactions of a range. */
  function TxsWithin(feed: Feed, from: nat, to: nat): set<string> {
    set i | 0 <= i < |feed.txs| && from <= feed.txs[i].block <= to :: feed.txs[i].hash
  }

  lemma {:induction false} TxsWithinRange(feed: Feed, from: nat, to: nat)
    ensures forall tx :: tx in TxsWithin(feed, from, to) <==> InRange(feed, from, to, tx)
  {
  }

  lemma {:induction false} TaskIsAbout(feed: Feed, from: nat, to: nat)
    requires WellFed(feed)
    ensures IsAbout(TaskFor(feed, from, to), TxsWithin(feed, from, to))
  {
    hide WellFed, InRange, TaskFor, TxsWithin;
    var t := TaskFor(feed, from, to);
    TxsWithinRange(feed, from, to);
    forall c | c in t.candidates ensures c.key.tx in TxsWithin(feed, from, to) {
      CandidateMoves(feed, from, to, from, to, c);
    }
    forall leg | leg in t.legs ensures leg.key.tx in TxsWithin(feed, from, to) {
      LegMoves(feed, from, to, from, to, leg);
      KeyMoves(feed, from, to, from, to, leg.key);
    }
  }

  lemma {:induction false} OnlyAgrees(s: Store, txs: set<string>, tx: string)
    requires tx in txs
    ensures AgreeAt(Only(s, txs), s, tx)
  {
  }

  lemma {:induction false} OnlyEmpty(a: Store, b: Store, txs: set<string>, tx: string)
    requires tx !in txs
    ensures AgreeAt(Only(a, txs), Only(b, txs), tx)
  {
  }

  /** Stores that are near for a larger range are so for a smaller one, cut down to it. */
  lemma {:induction false} OnlyNear(feed: Feed, from: nat, to: nat, from2: nat, to2: nat, a: Store, b: Store)
    requires WellFed(feed) && Near(TaskFor(feed, from2, to2), a, b)
    ensures Near(TaskFor(feed, from, to), Only(a, TxsWithin(feed, from, to)), Only(b, TxsWithin(feed, from, to)))
  {
    hide WellFed, InRange, TaskFor, TxsWithin, LegsNear, LegsAt, IsCandidate, GroupKeys, SameAt, Only;
    var t, u, txs := TaskFor(feed, from, to), TaskFor(feed, from2, to2), TxsWithin(feed, from, to);
    var c, d := Only(a, txs), Only(b, txs);
    TxsWithinRange(feed, from, to);
    forall key: Key
      ensures !IsCandidate(t, key) ==> SameAt(c.rows, d.rows, key)
      ensures key !in GroupKeys(t.legs) ==> LegsNear(t, key, 0, LegsAt(c.legs, key), LegsAt(d.legs, key))
    {
      if key.tx in txs {
        OnlyAgrees(a, txs, key.tx);
        OnlyAgrees(b, txs, key.tx);
        KeyInside(feed, from, to, from2, to2, a, b, key);
        if !IsCandidate(t, key) {
          SameEnds(c.rows, a.rows, b.rows, d.rows, key);
        }
      } else {
        OnlyEmpty(a, b, txs, key.tx);
        EqualIsNear(t, key, 0, LegsAt(c.legs, key));
      }
    }
    forall tx | tx !in Txs(t) ensures SameAt(c.summaries, d.summaries, tx) {
      if tx in txs {
        OnlyAgrees(a, txs, tx);
        OnlyAgrees(b, txs, tx);
        if tx in Txs(u) {
          TxMoves(feed, from2, to2, from, to, tx);
        }
        SameEnds(c.summaries, a.summaries, b.summaries, d.summaries, tx);
      } else {
        OnlyEmpty(a, b, txs, tx);
      }
    }
  }

  lemma {:induction false} SameEnds<K, V>(c: map<K, V>, a: map<K, V>, b: map<K, V>, d: map<K, V>, k: K)
    requires SameAt(c, a, k) && SameAt(a, b, k) && SameAt(d, b, k)
    ensures SameAt(c, d, k)
  {
  }

  /** For a key whose transaction lies in the smaller range, near means the same in both. */
  lemma {:induction false} KeyInside(feed: Feed, from: nat, to: nat, from2: nat, to2: nat, a: Store, b: Store, key: Key)
    requires WellFed(feed) && Near(TaskFor(feed, from2, to2), a, b) && InRange(feed, from, to, key.tx)
    ensures !IsCandidate(TaskFor(feed, from, to), key) ==> SameAt(a.rows, b.rows, key)
    ensures key !in GroupKeys(TaskFor(feed, from, to).legs) ==> LegsNear(TaskFor(feed, from, to), key, 0, LegsAt(a.legs, key), LegsAt(b.legs, key))
  {
    hide WellFed, InRange, TaskFor, LegsNear, LegsAt, IsCandidate, GroupKeys, SameAt;
    var u := TaskFor(feed, from2, to2);
    if IsCandidate(u, key) {
      KeyMoves(feed, from2, to2, from, to, key);
    }
    if key in GroupKeys(u.legs) {
      GroupMoves(feed, from2, to2, from, to, key);
    } else {
      NearMoves(feed, from2, to2, from, to, key, LegsAt(a.legs, key), LegsAt(b.legs, key));
    }
  }

  lemma {:induction false} WorkOrNothing(feed: Feed, from: nat, to: nat)
    requires WellFed(feed)
    ensures HasWork(TaskFor(feed, from, to)) || (TaskFor(feed, from, to).candidates == [] && TaskFor(feed, from, to).legs == [])
  {
    hide Stable;
    var t := TaskFor(feed, from, to);
    if t.candidates == [] {
      if t.legs != [] {
        LegMoves(feed, from, to, from, to, t.legs[0]);
      }
    } else {
      var c := t.candidates[0];
      assert c in t.candidates;
      var i :| 0 <= i < |feed.txs| && from <= feed.txs[i].block <= to && c in feed.txs[i].candidates;
      CountPositive(feed.txs, from, to, |feed.txs|, i);
    }
  }

  lemma {:induction false} CountPositive(txs: seq<Observed>, from: nat, to: nat, k: nat, i: nat)
    requires i < k <= |txs| && from <= txs[i].block <= to
    ensures CountWithin(txs, from, to, k) > 0
  {
    if i < k - 1 {
      CountPositive(txs, from, to, k - 1, i);
    }
  }

  lemma {:induction false} SameIsNearAt(t: Task, a: Store, b: Store, tx: string)
    requires Near(t, a, b) && t.candidates == [] && t.legs == []
    ensures AgreeAt(a, b, tx)
  {
    hide LegsAt, SameAt;
    forall key: Key | key.tx == tx ensures SameAt(a.rows, b.rows, key) && LegsAt(a.legs, key) == LegsAt(b.legs, key) {
      assert !IsCandidate(t, key);
      assert key !in GroupKeys(t.legs);
      assert LegsNear(t, key, 0, LegsAt(a.legs, key), LegsAt(b.legs, key));
    }
  }

  lemma {:induction false} SameStoreAgrees(a: Store, b: Store, tx: string)
    requires SameStore(a, b)
    ensures AgreeAt(a, b, tx)
  {
    hide LegsAt;
  }

  lemma {:induction false} AgreeThrough(a: Store, b: Store, c: Store, tx: string)
    requires AgreeAt(b, a, tx) && AgreeAt(b, c, tx)
    ensures AgreeAt(a, c, tx)
  {
    hide LegsAt;
  }

  /** Two runs over a range that succeed, from stores near for a larger range, agree on its transactions. */
  lemma {:induction false} RunsAgreeInside(feed: Feed, from: nat, to: nat, from2: nat, to2: nat, a: Store, b: Store,
                                           x: Try, y: Try, tx: string)
    requires WellFed(feed) && Near(TaskFor(feed, from2, to2), a, b) && InRange(feed, from, to, tx)
    requires GroupOrder(TaskFor(feed, from, to), x.order) && GroupOrder(TaskFor(feed, from, to), y.order)
    requires !RunOf(TaskFor(feed, from, to), a, x.order, x.budget).failed && !RunOf(TaskFor(feed, from, to), b, y.order, y.budget).failed
    ensures AgreeAt(RunOf(TaskFor(feed, from, to), a, x.order, x.budget).store, RunOf(TaskFor(feed, from, to), b, y.order, y.budget).store, tx)
  {
    hide WellFed, InRange, TaskFor, TxsWithin, RunOf, Stable, DistinctCandidates, GroupOrder, Near, Only, HasWork, SameStore, AgreeAt, IsAbout;
    var t, txs := TaskFor(feed, from, to), TxsWithin(feed, from, to);
    var ra, rb := RunOf(t, a, x.order, x.budget), RunOf(t, b, y.order, y.budget);
    TxsWithinRange(feed, from, to);
    TaskIsAbout(feed, from, to);
    TaskIsDistinct(feed, from, to);
    OnlyNear(feed, from, to, from2, to2, a, b);
    RunIsLocal(t, a, x.order, x.budget, txs);
    RunIsLocal(t, b, y.order, y.budget, txs);
    WorkOrNothing(feed, from, to);
    var c, d := Only(ra.store, txs), Only(rb.store, txs);
    assert AgreeAt(c, d, tx) by {
      if HasWork(t) {
        NearRunsAgree(t, Only(a, txs), Only(b, txs), x.order, x.budget, y.order, y.budget);
        SameStoreAgrees(c, d, tx);
      } else {
        NearItself(t, Only(a, txs));
        NearItself(t, Only(b, txs));
        RunNear(t, Only(a, txs), Only(a, txs), x.order, x.budget);
        RunNear(t, Only(b, txs), Only(b, txs), y.order, y.budget);
        SameIsNearAt(t, c, d, tx);
      }
    }
    OnlyAgrees(ra.store, txs, tx);
    OnlyAgrees(rb.store, txs, tx);
    AgreeThrough(ra.store, c, d, tx);
    AgreeSymmetric(ra.store, d, tx);
    AgreeThrough(ra.store, d, rb.store, tx);
  }

  lemma {:induction false} AgreeSymmetric(a: Store, b: Store, tx: string)
    requires AgreeAt(a, b, tx)
    ensures AgreeAt(b, a, tx)
  {
    hide LegsAt;
  }

  /** A run over the first blocks of a range that succeeds on both of two near stores leaves them near
      for what remains of the range. */
  lemma {:induction false} SuccessNear(feed: Feed, from: nat, to: nat, rest: nat, last: nat, a: Store, b: Store, x: Try, y: Try)
    requires WellFed(feed) && Near(TaskFor(feed, from, last), a, b) && rest <= to + 1
    requires GroupOrder(TaskFor(feed, from, to), x.order) && GroupOrder(TaskFor(feed, from, to), y.order)
    requires !RunOf(TaskFor(feed, from, to), a, x.order, x.budget).failed && !RunOf(TaskFor(feed, from, to), b, y.order, y.budget).failed
    ensures
      Near(TaskFor(feed, rest, last), RunOf(TaskFor(feed, from, to), a, x.order, x.budget).store, RunOf(TaskFor(feed, from, to), b, y.order, y.budget).store)
  {
    var t, u, v := TaskFor(feed, from, to), TaskFor(feed, from, last), TaskFor(feed, rest, last);
    var c, d := RunOf(t, a, x.order, x.budget).store, RunOf(t, b, y.order, y.budget).store;
    Remainder(feed, from, to, rest, last);
    hide WellFed, InRange, TaskFor, RunOf, GroupOrder, LegsNear, LegsAt, IsCandidate, GroupKeys, SameAt;
    forall tx ensures if InRange(feed, from, to, tx) then AgreeAt(c, d, tx) else AgreeAt(a, c, tx) && AgreeAt(b, d, tx) {
      if InRange(feed, from, to, tx) {
        RunsAgreeInside(feed, from, to, from, last, a, b, x, y, tx);
      } else {
        RunKeepsOthers(feed, from, to, a, x.order, x.budget, tx);
        RunKeepsOthers(feed, from, to, b, y.order, y.budget, tx);
      }
    }
    forall key | !IsCandidate(v, key) ensures SameAt(c.rows, d.rows, key) {
      if !InRange(feed, from, to, key.tx) {
        if IsCandidate(u, key) {
          KeyMoves(feed, from, last, rest, last, key);
        }
        SameSides(a.rows, b.rows, c.rows, d.rows, key);
      }
    }
    forall key | key !in GroupKeys(v.legs) ensures LegsNear(v, key, 0, LegsAt(c.legs, key), LegsAt(d.legs, key)) {
      if InRange(feed, from, to, key.tx) {
        EqualIsNear(v, key, 0, LegsAt(c.legs, key));
      } else {
        if key in GroupKeys(u.legs) {
          GroupMoves(feed, from, last, rest, last, key);
          KeyMoves(feed, from, last, rest, last, key);
        }
        if InRange(feed, from, last, key.tx) {
          NearMoves(feed, from, last, rest, last, key, LegsAt(a.legs, key), LegsAt(b.legs, key));
        } else {
          NearOutside(feed, from, last, key, LegsAt(a.legs, key), LegsAt(b.legs, key));
          EqualIsNear(v, key, 0, LegsAt(a.legs, key));
        }
      }
    }
    forall tx | tx !in Txs(v) ensures SameAt(c.summaries, d.summaries, tx) {
      if !InRange(feed, from, to, tx) {
        if tx in Txs(u) {
          TxMoves(feed, from, last, rest, last, tx);
        }
        SameSides(a.summaries, b.summaries, c.summaries, d.summaries, tx);
      }
    }
  }

  lemma {:induction false} SameSides<K, V>(a: map<K, V>, b: map<K, V>, c: map<K, V>, d: map<K, V>, k: K)
    requires SameAt(a, c, k) && SameAt(b, d, k) && SameAt(a, b, k)
    ensures SameAt(c, d, k)
  {
  }

  /** What lies in the whole range but not in its first part lies in the rest. */
  lemma {:induction false} Remainder(feed: Feed, from: nat, to: nat, rest: nat, last: nat)
    requires rest <= to + 1
    ensures forall tx :: InRange(feed, from, last, tx) && !InRange(feed, from, to, tx) ==> InRange(feed, rest, last, tx)
  {
    forall tx | InRange(feed, from, last, tx) && !InRange(feed, from, to, tx) ensures InRange(feed, rest, last, tx) {
      var i :| 0 <= i < |feed.txs| && from <= feed.txs[i].block <= last && feed.txs[i].hash == tx;
    }
  }

  lemma {:induction false} NearAgrees(feed: Feed, from: nat, to: nat, a: Store, b: Store, tx: string)
    requires WellFed(feed) && Near(TaskFor(feed, from, to), a, b) && !InRange(feed, from, to, tx)
    ensures AgreeAt(a, b, tx)
  {
    hide WellFed, InRange, TaskFor, LegsNear, LegsAt, IsCandidate, GroupKeys, SameAt;
    var t := TaskFor(feed, from, to);
    forall key: Key | key.tx == tx ensures SameAt(a.rows, b.rows, key) && LegsAt(a.legs, key) == LegsAt(b.legs, key) {
      if IsCandidate(t, key) {
        KeyMoves(feed, from, to, from, to, key);
      }
      if key in GroupKeys(t.legs) {
        GroupMoves(feed, from, to, from, to, key);
      }
      NearOutside(feed, from, to, key, LegsAt(a.legs, key), LegsAt(b.legs, key));
    }
    if tx in Txs(t) {
      TxMoves(feed, from, to, from, to, tx);
    }
  }

  // ---- the loop ----

  /** What one turn meets: no latest block or cursor, or a latest block, how the run over the next range
      goes, and whether the cursor can be saved after it. */
  datatype Turn = Unavailable | Answered(latest: L.Uint64, try: Try, saves: bool)

  datatype State = State(loop: L.State, store: Store)

  /** The turn starts a run over the next range. */
  predicate Scans(s: State, turn: Turn) {
    turn.Answered? && L.NextBlock(s.loop.cursor) <= turn.latest
  }

  function NextTask(feed: Feed, batch: L.Uint64, s: State, turn: Turn): Task
    requires batch > 0 && Scans(s, turn)
  {
    var range := L.SavedRange(batch, s.loop.cursor, turn.latest);
    TaskFor(feed, range.from as nat, range.to as nat)
  }

  function ScanRun(feed: Feed, batch: L.Uint64, s: State, turn: Turn): Run
    requires batch > 0 && Scans(s, turn)
  {
    RunOf(NextTask(feed, batch, s, turn), s.store, turn.try.order, turn.try.budget)
  }

  /** The turn as the cursor sees it. */
  function CursorTurn(feed: Feed, batch: L.Uint64, s: State, turn: Turn): L.Turn
    requires batch > 0
  {
    if turn.Unavailable? then L.Unavailable
    else if Scans(s, turn) && ScanRun(feed, batch, s, turn).failed then L.Answered(turn.latest, L.ScanError)
    else L.Answered(turn.latest, if turn.saves then L.Scanned else L.SaveError)
  }

  function Step(feed: Feed, batch: L.Uint64, s: State, turn: Turn): State
    requires batch > 0
  {
    State(L.Step(batch, s.loop, CursorTurn(feed, batch, s, turn)), if Scans(s, turn) then ScanRun(feed, batch, s, turn).store else s.store)
  }

  /** The loop, failing and started again any number of times, after k turns. */
  function Looped(feed: Feed, batch: L.Uint64, start: Store, turns: seq<Turn>, k: nat): State
    requires batch > 0 && k <= |turns|
  {
    if k == 0 then State(L.State(0, []), start) else Step(feed, batch, Looped(feed, batch, start, turns, k - 1), turns[k - 1])
  }

  /** Every run started in the first k turns writes its leg groups in some order, over a batch that fits. */
  ghost predicate Regular(feed: Feed, batch: L.Uint64, start: Store, turns: seq<Turn>, k: nat)
    requires batch > 0 && k <= |turns|
  {
    forall i :: 0 <= i < k && Scans(Looped(feed, batch, start, turns, i), turns[i]) ==>
      && L.BatchFits(batch, Looped(feed, batch, start, turns, i).loop.cursor)
      && GroupOrder(NextTask(feed, batch, Looped(feed, batch, start, turns, i), turns[i]), turns[i].try.order)
  }

  /** One run after another over the first k saved ranges. */
  function CleanPass(feed: Feed, saved: seq<L.Range>, start: Store, clean: seq<Try>, k: nat): Store
    requires k <= |saved| && k <= |clean|
  {
    if k == 0 then start else
      RunOf(TaskFor(feed, saved[k - 1].from as nat, saved[k - 1].to as nat), CleanPass(feed, saved, start, clean, k - 1),
            clean[k - 1].order, clean[k - 1].budget).store
  }

  ghost predicate PassSucceeds(feed: Feed, saved: seq<L.Range>, start: Store, clean: seq<Try>) {
    && |clean| >= |saved|
    && forall k :: 0 <= k < |saved| ==>
         var t := TaskFor(feed, saved[k].from as nat, saved[k].to as nat);
         GroupOrder(t, clean[k].order) && !RunOf(t, CleanPass(feed, saved, start, clean, k), clean[k].order, clean[k].budget).failed
  }

  lemma {:induction false} PassPrefix(feed: Feed, saved: seq<L.Range>, range: L.Range, start: Store, clean: seq<Try>, k: nat)
    requires k <= |saved| && k <= |clean|
    ensures CleanPass(feed, saved + [range], start, clean, k) == CleanPass(feed, saved, start, clean, k)
  {
    hide RunOf, TaskFor;
    if k > 0 {
      PassPrefix(feed, saved, range, start, clean, k - 1);
      assert (saved + [range])[k - 1] == saved[k - 1];
    }
  }

  lemma {:induction false} PassOneLess(feed: Feed, saved: seq<L.Range>, range: L.Range, start: Store, clean: seq<Try>)
    requires PassSucceeds(feed, saved + [range], start, clean)
    ensures |saved| < |clean| && PassSucceeds(feed, saved, start, clean)
    ensures
      var t, before, last := TaskFor(feed, range.from as nat, range.to as nat), CleanPass(feed, saved, start, clean, |saved|), clean[|saved|];
      && GroupOrder(t, last.order) && !RunOf(t, before, last.order, last.budget).failed
      && CleanPass(feed, saved + [range], start, clean, |saved| + 1) == RunOf(t, before, last.order, last.budget).store
  {
    hide RunOf, GroupOrder, TaskFor;
    var all := saved + [range];
    forall k | 0 <= k < |saved|
      ensures
        var t := TaskFor(feed, saved[k].from as nat, saved[k].to as nat);
        GroupOrder(t, clean[k].order) && !RunOf(t, CleanPass(feed, saved, start, clean, k), clean[k].order, clean[k].budget).failed
    {
      assert all[k] == saved[k];
      PassPrefix(feed, saved, range, start, clean, k);
    }
    assert all[|saved|] == range;
    PassPrefix(feed, saved, range, start, clean, |saved|);
  }

  const LAST: nat := UINT64

  /** The store is near what the clean pass leaves, for the blocks that are still to be scanned. */
  ghost predicate LoopNear(feed: Feed, s: State, start: Store, clean: seq<Try>)
    requires |s.loop.saved| <= |clean|
  {
    Near(TaskFor(feed, L.TrueNext(s.loop.cursor), LAST), CleanPass(feed, s.loop.saved, start, clean, |s.loop.saved|), s.store)
  }

  lemma {:induction false} StepNear(feed: Feed, batch: L.Uint64, s: State, turn: Turn, start: Store, clean: seq<Try>)
    requires WellFed(feed) && batch > 0
    requires Scans(s, turn) ==> L.BatchFits(batch, s.loop.cursor) && GroupOrder(NextTask(feed, batch, s, turn), turn.try.order)
    requires PassSucceeds(feed, Step(feed, batch, s, turn).loop.saved, start, clean)
    requires |s.loop.saved| <= |clean| && LoopNear(feed, s, start, clean)
    ensures LoopNear(feed, Step(feed, batch, s, turn), start, clean)
  {
    hide WellFed, TaskFor, RunOf, GroupOrder, Near, CleanPass, PassSucceeds;
    if Scans(s, turn) {
      var range := L.SavedRange(batch, s.loop.cursor, turn.latest);
      var from, to := range.from as nat, range.to as nat;
      L.RangeFollowsExactly(batch, s.loop.cursor, turn.latest);
      var run, before := ScanRun(feed, batch, s, turn), CleanPass(feed, s.loop.saved, start, clean, |s.loop.saved|);
      if run.failed || !turn.saves {
        AttemptNear(feed, from, to, from, LAST, before, s.store, turn.try.order, turn.try.budget);
      } else {
        PassOneLess(feed, s.loop.saved, range, start, clean);
        SuccessNear(feed, from, to, L.TrueNext(range.to), LAST, before, s.store, clean[|s.loop.saved|], turn.try);
      }
    }
  }

  lemma {:induction false} LoopStaysNear(feed: Feed, batch: L.Uint64, start: Store, turns: seq<Turn>, k: nat, clean: seq<Try>)
    requires WellFed(feed) && batch > 0 && k <= |turns| && Regular(feed, batch, start, turns, k)
    requires PassSucceeds(feed, Looped(feed, batch, start, turns, k).loop.saved, start, clean)
    ensures LoopNear(feed, Looped(feed, batch, start, turns, k), start, clean)
  {
    hide WellFed, TaskFor, GroupOrder, Near, CleanPass, Step, NextTask, L.BatchFits;
    if k == 0 {
      hide *;
      StartNear(feed, batch, start, turns, clean);
    } else {
      var before, after := Looped(feed, batch, start, turns, k - 1), Looped(feed, batch, start, turns, k);
      SavedMore(feed, batch, before, turns[k - 1], start, clean);
      LoopStaysNear(feed, batch, start, turns, k - 1, clean);
      StepNear(feed, batch, before, turns[k - 1], start, clean);
    }
  }

  lemma {:induction false} StartNear(feed: Feed, batch: L.Uint64, start: Store, turns: seq<Turn>, clean: seq<Try>)
    requires batch > 0
    ensures LoopNear(feed, Looped(feed, batch, start, turns, 0), start, clean)
  {
    NearItself(TaskFor(feed, 0, LAST), start);
  }

  lemma {:induction false} SavedMore(feed: Feed, batch: L.Uint64, s: State, turn: Turn, start: Store, clean: seq<Try>)
    requires batch > 0 && PassSucceeds(feed, Step(feed, batch, s, turn).loop.saved, start, clean)
    ensures PassSucceeds(feed, s.loop.saved, start, clean)
  {
    hide TaskFor, RunOf, GroupOrder, PassSucceeds, L.SavedRange;
    var next := Step(feed, batch, s, turn).loop;
    if next.saved != s.loop.saved {
      var range := next.saved[|s.loop.saved|];
      assert next.saved == s.loop.saved + [range];
      PassOneLess(feed, s.loop.saved, range, start, clean);
    }
  }

  /** Convergence of the loop: with any latest-block answers, runs cut off at any call, cursors that
      cannot be saved and restarts, what the store says about every transaction that is not in a block
      still to be scanned is what one clean pass over the saved ranges leaves. */
  lemma {:induction false} LoopConverges(feed: Feed, batch: L.Uint64, start: Store, turns: seq<Turn>, clean: seq<Try>)
    requires WellFed(feed) && batch > 0 && Regular(feed, batch, start, turns, |turns|)
    requires PassSucceeds(feed, Looped(feed, batch, start, turns, |turns|).loop.saved, start, clean)
    ensures
      var end := Looped(feed, batch, start, turns, |turns|);
      forall tx :: !InRange(feed, L.TrueNext(end.loop.cursor), LAST, tx) ==>
        AgreeAt(CleanPass(feed, end.loop.saved, start, clean, |end.loop.saved|), end.store, tx)
  {
    hide WellFed, InRange, AgreeAt, Near, TaskFor, CleanPass, Looped, Regular;
    var end := Looped(feed, batch, start, turns, |turns|);
    LoopStaysNear(feed, batch, start, turns, |turns|, clean);
    forall tx | !InRange(feed, L.TrueNext(end.loop.cursor), LAST, tx)
      ensures AgreeAt(CleanPass(feed, end.loop.saved, start, clean, |end.loop.saved|), end.store, tx)
    {
      NearAgrees(feed, L.TrueNext(end.loop.cursor), LAST, CleanPass(feed, end.loop.saved, start, clean, |end.loop.saved|), end.store, tx);
    }
  }

  /** The turns as the cursor saw them. */
  function CursorTurns(feed: Feed, batch: L.Uint64, start: Store, turns: seq<Turn>, k: nat): (out: seq<L.Turn>)
    requires batch > 0 && k <= |turns|
    ensures |out| == k
  {
    if k == 0 then [] else
      CursorTurns(feed, batch, start, turns, k - 1) + [CursorTurn(feed, batch, Looped(feed, batch, start, turns, k - 1), turns[k - 1])]
  }

  /** The cursor of this loop is the cursor of RunLoop. */
  lemma {:induction false} LoopIsRunLoop(feed: Feed, batch: L.Uint64, start: Store, turns: seq<Turn>, k: nat)
    requires batch > 0 && k <= |turns|
    ensures Looped(feed, batch, start, turns, k).loop == L.After(batch, L.State(0, []), CursorTurns(feed, batch, start, turns, k), k)
  {
    hide CursorTurn, L.Step;
    if k > 0 {
      LoopIsRunLoop(feed, batch, start, turns, k - 1);
      AfterPrefix(batch, CursorTurns(feed, batch, start, turns, k - 1), CursorTurns(feed, batch, start, turns, k), k - 1);
    }
  }

  lemma {:induction false} AfterPrefix(batch: L.Uint64, some: seq<L.Turn>, more: seq<L.Turn>, k: nat)
    requires batch > 0 && some <= more && k <= |some|
    ensures L.After(batch, L.State(0, []), some, k) == L.After(batch, L.State(0, []), more, k)
  {
    if k > 0 {
      AfterPrefix(batch, some, more, k - 1);
    }
  }
}
