/** What the Balancer extractor finds, said of the transactions and their logs: which candidates there
    are, where they come from, and when extraction fails. */
module ExtractRules {
  import opened Text
  import opened ScanTypes
  import opened Verifiers
  import X = BalancerExtractor

  /** A top-level flashLoan call of an official vault. */
  predicate IsVaultCall(vaults: set<string>, tx: X.ObservedTx) {
    tx.to != "" && tx.to in vaults && (tx.call.FlashLoanCall? || tx.call.BadCall?)
  }

  /** A FlashLoan log of an official vault in the transaction. */
  ghost predicate IsVaultLog(vaults: set<string>, chain: Chain, tx: X.ObservedTx, e: ChainEvent) {
    e in EventsOf(chain, tx.hash) && e.BalancerFlashLoan? && e.contract in vaults
  }

  /** The candidate of a call: ordinal 0, from the vault called to the recipient named in the call. */
  ghost predicate OfCall(tx: X.ObservedTx, c: Candidate) {
    && tx.call.FlashLoanCall?
    && c.key == Key(tx.hash, 0) && c.block == tx.block && c.protocol == "balancer_v2" && c.entrypoint == "flashLoan"
    && c.provider == tx.to && c.receiver == tx.call.receiver && c.level == 2 && c.dataNonEmpty == Some(tx.call.dataNonEmpty)
  }

  /** A candidate of the logs: from the vault that logged to the recipient it logged. */
  ghost predicate OfLog(tx: X.ObservedTx, e: ChainEvent, c: Candidate) {
    && e.BalancerFlashLoan?
    && c.key.tx == tx.hash && c.block == tx.block && c.protocol == "balancer_v2" && c.entrypoint == "flashLoan:event"
    && c.provider == e.contract && c.receiver == e.receiver && c.level == 1 && c.dataNonEmpty.None?
  }

  ghost predicate Fails(vaults: set<string>, tx: X.ObservedTx) {
    IsVaultCall(vaults, tx) && tx.call.BadCall?
  }

  /** Where a candidate of a transaction comes from. */
  ghost predicate ComesFrom(vaults: set<string>, chain: Chain, tx: X.ObservedTx, c: Candidate) {
    if IsVaultCall(vaults, tx) then OfCall(tx, c) else exists e :: IsVaultLog(vaults, chain, tx, e) && OfLog(tx, e, c)
  }

  lemma {:induction false} GroupedAre(tx: X.ObservedTx, events: seq<ChainEvent>, c: Candidate)
    requires forall e :: e in events ==> e.BalancerFlashLoan?
    ensures c in X.EventInteractions(tx, events) ==> exists e :: e in events && OfLog(tx, e, c)
    ensures forall e :: e in events ==> exists d :: d in X.EventInteractions(tx, events) && OfLog(tx, e, d)
  {
    hide X.GroupKeys;
    var keys, all := X.GroupKeys(events, |events|), X.EventInteractions(tx, events);
    X.KeysDistinct(events, |events|);
    if c in all {
      var n :| 0 <= n < |all| && all[n] == c;
      assert keys[n] in keys;
      var i :| 0 <= i < |events| && X.KeyOf(events[i]) == keys[n];
      assert events[i] in events && OfLog(tx, events[i], c);
    }
    forall e | e in events ensures exists d :: d in all && OfLog(tx, e, d) {
      var i :| 0 <= i < |events| && events[i] == e;
      assert X.KeyOf(e) in keys;
      var n :| 0 <= n < |keys| && keys[n] == X.KeyOf(e);
      assert all[n] in all && OfLog(tx, e, all[n]);
    }
  }

  /** One transaction: a bad call fails, a good one gives its one candidate, and otherwise the candidates are
      those of the vault's logs, every log having one. */
  lemma {:induction false} TxExactly(vaults: set<string>, chain: Chain, tx: X.ObservedTx)
    ensures
      var x := X.FromTx(vaults, chain, tx);
      && (x.ExtractError? <==> Fails(vaults, tx))
      && (x.Extracted? ==>
            && (forall c :: c in x.interactions ==> ComesFrom(vaults, chain, tx, c))
            && (IsVaultCall(vaults, tx) ==> |x.interactions| == 1)
            && (!IsVaultCall(vaults, tx) ==>
                  forall e :: IsVaultLog(vaults, chain, tx, e) ==> exists c :: c in x.interactions && OfLog(tx, e, c)))
  {
    hide X.EventInteractions, OfLog, X.AllEventLegs;
    var x := X.FromTx(vaults, chain, tx);
    if !IsVaultCall(vaults, tx) {
      var events := AllKept(X.OfVaults(vaults), EventsOf(chain, tx.hash));
      forall e ensures e in events <==> IsVaultLog(vaults, chain, tx, e) {
      }
      forall c | c in x.interactions ensures ComesFrom(vaults, chain, tx, c) {
        GroupedAre(tx, events, c);
      }
      forall e | IsVaultLog(vaults, chain, tx, e) ensures exists c :: c in x.interactions && OfLog(tx, e, c) {
        GroupedAre(tx, events, Candidate(Key("", 0), 0, "", "", "", "", 0, None));
      }
    }
  }

  /** The legs of a call: one for each token it names, with the amount at the same place if there is one. */
  lemma {:induction false} CallLegsExactly(vaults: set<string>, chain: Chain, tx: X.ObservedTx, i: nat)
    requires IsVaultCall(vaults, tx) && tx.call.FlashLoanCall? && i < |tx.call.tokens|
    ensures
      var x := X.FromTx(vaults, chain, tx);
      && x.Extracted? && |x.legs| == |tx.call.tokens|
      && x.legs[i].key == Key(tx.hash, 0) && x.legs[i].index == i && x.legs[i].asset == tx.call.tokens[i]
      && x.legs[i].borrowed == (if i < |tx.call.amounts| then tx.call.amounts[i] else None)
      && !x.legs[i].strict && !x.legs[i].eventSeen && !x.legs[i].openedDebt && x.legs[i].settlement.None?
  {
  }

  /** The whole extraction fails exactly when some transaction calls a vault with data that cannot be
      decoded; otherwise its candidates are exactly those of the transactions, in order. */
  lemma {:induction false} ExtractExactly(vaults: set<string>, chain: Chain, txs: seq<X.ObservedTx>, k: nat)
    requires k <= |txs|
    ensures
      var x := X.ExtractUpTo(vaults, chain, txs, k);
      && (x.ExtractError? <==> exists i :: 0 <= i < k && Fails(vaults, txs[i]))
      && (x.Extracted? ==> forall c :: c in x.interactions <==> exists i :: 0 <= i < k && c in CandidatesOf(vaults, chain, txs[i]))
  {
    hide X.FromTx, Fails;
    if k > 0 {
      ExtractExactly(vaults, chain, txs, k - 1);
      TxFails(vaults, chain, txs[k - 1]);
      var x, before := X.ExtractUpTo(vaults, chain, txs, k), X.ExtractUpTo(vaults, chain, txs, k - 1);
      if x.Extracted? {
        forall c ensures c in x.interactions <==> exists i :: 0 <= i < k && c in CandidatesOf(vaults, chain, txs[i]) {
          assert c in x.interactions <==> c in before.interactions || c in CandidatesOf(vaults, chain, txs[k - 1]);
        }
      }
    }
  }

  function CandidatesOf(vaults: set<string>, chain: Chain, tx: X.ObservedTx): seq<Candidate> {
    var x := X.FromTx(vaults, chain, tx);
    if x.Extracted? then x.interactions else []
  }

  lemma {:induction false} TxFails(vaults: set<string>, chain: Chain, tx: X.ObservedTx)
    ensures X.FromTx(vaults, chain, tx).ExtractError? <==> Fails(vaults, tx)
  {
    TxExactly(vaults, chain, tx);
    hide X.FromTx;
  }
}
