/** The Balancer pipeline end to end: extraction, the run through the stores, and what the stores
    then say about candidates that were derived from vault events. */
module BalancerPipeline {
  import opened ScanTypes
  import opened Verifiers
  import opened Aggregator
  import X = BalancerExtractor
  import TraceVerifiers
  import opened ProtocolRunner
  import opened RunConvergence

  function EventsOfTx(vaults: set<string>, chain: Chain, tx: X.ObservedTx): seq<ChainEvent> {
    AllKept(X.OfVaults(vaults), EventsOf(chain, tx.hash))
  }

  /** A Balancer run over observed transactions, verified from events. */
  function BalancerTask(vaults: set<string>, chain: Chain, txs: seq<X.ObservedTx>, from: nat, to: nat): Task {
    var x := X.ExtractUpTo(vaults, chain, txs, |txs|);
    Task(from, to, true, |txs|, x.Extracted?, if x.Extracted? then x.interactions else [], if x.Extracted? then x.legs else [],
         (c: Candidate, legs: seq<Leg>) => TraceVerifiers.BaseOutcome(Balancer, chain, c, legs))
  }

  ghost predicate DistinctHashes(txs: seq<X.ObservedTx>) {
    forall i, j :: 0 <= i < j < |txs| ==> txs[i].hash != txs[j].hash
  }

  /** All candidates and legs belong to the transaction, and candidates are numbered apart. */
  ghost predicate Belongs(x: X.Extraction, hash: string) {
    x.Extracted? ==>
      && (forall c :: c in x.interactions ==> c.key.tx == hash)
      && (forall leg :: leg in x.legs ==> leg.key.tx == hash)
      && (forall i, j :: 0 <= i < j < |x.interactions| ==> x.interactions[i].key != x.interactions[j].key)
  }

  lemma {:induction false} EventLegsBelong(tx: X.ObservedTx, events: seq<ChainEvent>, n: nat)
    requires n <= |X.GroupKeys(events, |events|)|
    ensures forall leg :: leg in X.AllEventLegs(tx, events, n) ==> leg.key.tx == tx.hash && leg.key.ordinal < n
  {
    hide X.GroupKeys, X.GroupEvents;
    if n > 0 {
      EventLegsBelong(tx, events, n - 1);
    }
  }

  lemma {:induction false} TxBelongs(vaults: set<string>, chain: Chain, tx: X.ObservedTx)
    ensures Belongs(X.FromTx(vaults, chain, tx), tx.hash)
  {
    hide X.GroupKeys, X.GroupEvents, AllKept;
    var events := EventsOfTx(vaults, chain, tx);
    EventLegsBelong(tx, events, |X.GroupKeys(events, |events|)|);
  }

  /** Candidates and legs of a prefix belong to its transactions. */
  lemma {:induction false} PrefixBelongs(vaults: set<string>, chain: Chain, txs: seq<X.ObservedTx>, m: nat)
    requires m <= |txs| && DistinctHashes(txs) && X.ExtractUpTo(vaults, chain, txs, m).Extracted?
    ensures
      var x := X.ExtractUpTo(vaults, chain, txs, m);
      && (forall c :: c in x.interactions ==> exists j :: 0 <= j < m && txs[j].hash == c.key.tx)
      && (forall leg :: leg in x.legs ==> exists j :: 0 <= j < m && txs[j].hash == leg.key.tx)
      && (forall i, j :: 0 <= i < j < |x.interactions| ==> x.interactions[i].key != x.interactions[j].key)
  {
    hide X.FromTx;
    if m > 0 {
      PrefixBelongs(vaults, chain, txs, m - 1);
      TxBelongs(vaults, chain, txs[m - 1]);
      var before, here, x := X.ExtractUpTo(vaults, chain, txs, m - 1), X.FromTx(vaults, chain, txs[m - 1]), X.ExtractUpTo(vaults, chain, txs, m);
      forall i, j | 0 <= i < j < |x.interactions| ensures x.interactions[i].key != x.interactions[j].key {
        if i < |before.interactions| <= j {
          assert before.interactions[i] in before.interactions && x.interactions[j] in here.interactions;
        }
      }
    }
  }

  lemma {:induction false} CandidatesDistinct(vaults: set<string>, chain: Chain, txs: seq<X.ObservedTx>, from: nat, to: nat)
    requires DistinctHashes(txs)
    ensures DistinctCandidates(BalancerTask(vaults, chain, txs, from, to))
  {
    hide X.ExtractUpTo;
    if X.ExtractUpTo(vaults, chain, txs, |txs|).Extracted? {
      PrefixBelongs(vaults, chain, txs, |txs|);
    }
  }

  lemma {:induction false} BalancerIsStable(vaults: set<string>, chain: Chain, txs: seq<X.ObservedTx>, from: nat, to: nat)
    ensures Stable(BalancerTask(vaults, chain, txs, from, to).verify)
  {
    hide TraceVerifiers.BaseOutcome, X.ExtractUpTo;
    var verify := BalancerTask(vaults, chain, txs, from, to).verify;
    forall c, legs | verify(c, legs).Judged? && verify(c, legs).legs.Some?
      ensures verify(c, verify(c, legs).legs.value) == verify(c, legs)
    {
      TraceVerifiers.BaseAgain(Balancer, chain, c, legs);
    }
  }

  /** Scanning observed transactions for Balancer loans converges: however many runs over them were cut
      off and wherever, a run that succeeds leaves what one clean run would have left. */
  lemma {:induction false} BalancerRunsConverge(vaults: set<string>, chain: Chain, txs: seq<X.ObservedTx>, from: nat, to: nat,
                                                start: Store, tries: seq<Try>, last: Try, clean: Try)
    requires DistinctHashes(txs)
    requires
      var t := BalancerTask(vaults, chain, txs, from, to);
      && (forall a :: a in tries ==> GroupOrder(t, a.order)) && GroupOrder(t, last.order) && GroupOrder(t, clean.order)
      && !RunOf(t, start, clean.order, clean.budget).failed
      && !RunOf(t, After(t, start, tries), last.order, last.budget).failed
    ensures
      var t := BalancerTask(vaults, chain, txs, from, to);
      SameStore(RunOf(t, start, clean.order, clean.budget).store, RunOf(t, After(t, start, tries), last.order, last.budget).store)
  {
    hide BalancerTask, Stable, DistinctCandidates, GroupOrder, RunOf, After, SameStore;
    CandidatesDistinct(vaults, chain, txs, from, to);
    BalancerIsStable(vaults, chain, txs, from, to);
    RunsConverge(BalancerTask(vaults, chain, txs, from, to), start, tries, last, clean);
  }

  // ---- the legs of one candidate among all legs ----

  lemma {:induction false} LegsOfConcat(a: seq<Leg>, b: seq<Leg>, key: Key, k: nat)
    requires k <= |b|
    ensures LegsOf(a + b, key, |a| + k) == LegsOf(a, key, |a|) + LegsOf(b, key, k)
  {
    if k == 0 {
      LegsOfPrefix(a, b, key, |a|);
    } else {
      LegsOfConcat(a, b, key, k - 1);
    }
  }

  lemma {:induction false} LegsOfPrefix(a: seq<Leg>, b: seq<Leg>, key: Key, k: nat)
    requires k <= |a|
    ensures LegsOf(a + b, key, k) == LegsOf(a, key, k)
  {
    if k > 0 {
      LegsOfPrefix(a, b, key, k - 1);
    }
  }

  lemma {:induction false} LegsOfNone(legs: seq<Leg>, key: Key, k: nat)
    requires k <= |legs| && forall leg :: leg in legs ==> leg.key != key
    ensures LegsOf(legs, key, k) == []
  {
    if k > 0 {
      LegsOfNone(legs, key, k - 1);
      assert legs[k - 1] in legs;
    }
  }

  lemma {:induction false} LegsOfAll(legs: seq<Leg>, key: Key, k: nat)
    requires k <= |legs| && forall leg :: leg in legs ==> leg.key == key
    ensures LegsOf(legs, key, k) == legs[..k]
  {
    if k > 0 {
      LegsOfAll(legs, key, k - 1);
      assert legs[k - 1] in legs;
    }
  }

  lemma {:induction false} LegsOfTx(vaults: set<string>, chain: Chain, txs: seq<X.ObservedTx>, k: nat, m: nat, key: Key)
    requires k < m <= |txs| && DistinctHashes(txs) && key.tx == txs[k].hash && X.ExtractUpTo(vaults, chain, txs, m).Extracted?
    ensures X.FromTx(vaults, chain, txs[k]).Extracted?
    ensures
      var all, here := X.ExtractUpTo(vaults, chain, txs, m).legs, X.FromTx(vaults, chain, txs[k]).legs;
      LegsOf(all, key, |all|) == LegsOf(here, key, |here|)
    decreases m
  {
    hide X.FromTx, LegsOf;
    var before, here := X.ExtractUpTo(vaults, chain, txs, m - 1).legs, X.FromTx(vaults, chain, txs[m - 1]).legs;
    LegsOfConcat(before, here, key, |here|);
    PrefixBelongs(vaults, chain, txs, m - 1);
    TxBelongs(vaults, chain, txs[m - 1]);
    if k == m - 1 {
      LegsOfNone(before, key, |before|);
      assert [] + LegsOf(here, key, |here|) == LegsOf(here, key, |here|);
    } else {
      LegsOfTx(vaults, chain, txs, k, m - 1, key);
      LegsOfNone(here, key, |here|);
      assert LegsOf(before, key, |before|) + [] == LegsOf(before, key, |before|);
    }
  }

  lemma {:induction false} LegsOfGroup(tx: X.ObservedTx, events: seq<ChainEvent>, n: nat, m: nat)
    requires n < m <= |X.GroupKeys(events, |events|)|
    ensures
      var all := X.AllEventLegs(tx, events, m);
      LegsOf(all, Key(tx.hash, n), |all|) == X.EventLegs(tx, events, n)
    decreases m
  {
    hide X.GroupKeys, X.GroupEvents, LegsOf;
    var key := Key(tx.hash, n);
    var before, here := X.AllEventLegs(tx, events, m - 1), X.EventLegs(tx, events, m - 1);
    LegsOfConcat(before, here, key, |here|);
    EventLegsBelong(tx, events, m - 1);
    if n == m - 1 {
      LegsOfNone(before, key, |before|);
      LegsOfAll(here, key, |here|);
    } else {
      LegsOfGroup(tx, events, n, m - 1);
      LegsOfNone(here, key, |here|);
    }
  }

  lemma {:induction false} LegsOfMember(legs: seq<Leg>, key: Key, k: nat, leg: Leg)
    requires k <= |legs| && leg in LegsOf(legs, key, k)
    ensures leg in legs && leg.key == key
  {
    if leg in LegsOf(legs, key, k - 1) {
      LegsOfMember(legs, key, k - 1, leg);
    }
  }

  lemma {:induction false} CandidateListed(vaults: set<string>, chain: Chain, txs: seq<X.ObservedTx>, k: nat, m: nat,
                                           c: Candidate)
    requires k < m <= |txs| && X.ExtractUpTo(vaults, chain, txs, m).Extracted?
    requires X.FromTx(vaults, chain, txs[k]).Extracted? && c in X.FromTx(vaults, chain, txs[k]).interactions
    ensures c in X.ExtractUpTo(vaults, chain, txs, m).interactions
    decreases m
  {
    hide X.FromTx;
    if k < m - 1 {
      CandidateListed(vaults, chain, txs, k, m - 1, c);
    }
  }

  /** Through a whole run: every candidate derived from the vault events of a successful transaction
      is stored as strict, and its stored legs, one for each event of its group, carry the fees of
      the first logs of their loans. */
  lemma {:induction false} EventCandidatesStoredStrict(vaults: set<string>, chain: Chain, txs: seq<X.ObservedTx>,
                                                       from: nat, to: nat,
                                    start: Store, order: seq<Key>, budget: nat, k: nat, n: nat)
    requires DistinctHashes(txs) && k < |txs| && X.ExtractUpTo(vaults, chain, txs, |txs|).Extracted?
    requires !X.CallsVault(vaults, txs[k]) && Succeeded(chain, txs[k].hash)
    requires n < |X.GroupKeys(EventsOfTx(vaults, chain, txs[k]), |EventsOfTx(vaults, chain, txs[k])|)|
    requires forall e :: e in EventsOfTx(vaults, chain, txs[k]) ==> X.HasAmount(e)
    requires GroupOrder(BalancerTask(vaults, chain, txs, from, to), order)
    requires !RunOf(BalancerTask(vaults, chain, txs, from, to), start, order, budget).failed
    ensures
      var tx, events := txs[k], EventsOfTx(vaults, chain, txs[k]);
      var final, key := RunOf(BalancerTask(vaults, chain, txs, from, to), start, order, budget).store, Key(txs[k].hash, n);
      var group := X.GroupEvents(events, X.GroupKeys(events, |events|)[n], |events|);
      && |X.EventLegs(tx, events, n)| == |group| > 0
      && key in final.rows && final.rows[key] == Row(X.EventInteractions(tx, events)[n], Accepted(true, false))
      && LegsAt(final.legs, key) == X.FirstRecords(chain, tx, X.EventLegs(tx, events, n), group)
  {
    var t, tx, events := BalancerTask(vaults, chain, txs, from, to), txs[k], EventsOfTx(vaults, chain, txs[k]);
    var c, legs, key := X.EventInteractions(tx, events)[n], X.EventLegs(tx, events, n), Key(txs[k].hash, n);
    var group := X.GroupEvents(events, X.GroupKeys(events, |events|)[n], |events|);
    var i := Located(vaults, chain, txs, k, n);
    hide X.ExtractUpTo, X.GroupKeys, X.GroupEvents, X.EventLegs, AllKept, RunOf, BalancerOutcome, LegsOf, LegsAt,
         X.FirstRecords, X.HasAmount, GroupOrder, DistinctCandidates;
    CandidatesDistinct(vaults, chain, txs, from, to);
    RunSettles(t, start, order, budget, i);
    X.EventCandidatesAreStrict(vaults, chain, tx, n);
    assert legs[0] in legs;
    LegsOfMember(t.legs, key, |t.legs|, legs[0]);
    assert key in GroupKeys(t.legs);
  }

  /** Where the candidate stands in the run's list, and which legs the run has for it. */
  lemma {:induction false} Located(vaults: set<string>, chain: Chain, txs: seq<X.ObservedTx>, k: nat,
                                   n: nat) returns (i: nat)
    requires DistinctHashes(txs) && k < |txs| && X.ExtractUpTo(vaults, chain, txs, |txs|).Extracted? && !X.CallsVault(vaults, txs[k])
    requires n < |X.GroupKeys(EventsOfTx(vaults, chain, txs[k]), |EventsOfTx(vaults, chain, txs[k])|)|
    ensures
      var x, tx, events := X.ExtractUpTo(vaults, chain, txs, |txs|), txs[k], EventsOfTx(vaults, chain, txs[k]);
      && i < |x.interactions| && x.interactions[i] == X.EventInteractions(tx, events)[n]
      && LegsOf(x.legs, Key(tx.hash, n), |x.legs|) == X.EventLegs(tx, events, n)
  {
    var x, tx, events := X.ExtractUpTo(vaults, chain, txs, |txs|), txs[k], EventsOfTx(vaults, chain, txs[k]);
    var c := X.EventInteractions(tx, events)[n];
    hide X.ExtractUpTo, X.GroupKeys, X.GroupEvents, X.EventLegs, AllKept, LegsOf, X.EventCandidate;
    assert c in X.EventInteractions(tx, events);
    CandidateListed(vaults, chain, txs, k, |txs|, c);
    LegsOfTx(vaults, chain, txs, k, |txs|, Key(tx.hash, n));
    LegsOfGroup(tx, events, n, |X.GroupKeys(events, |events|)|);
    i :| 0 <= i < |x.interactions| && x.interactions[i] == c;
  }
}
