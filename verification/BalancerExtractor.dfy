/** Candidates out of Balancer vault transactions (scanner/extractor/balancer_v2.go): a top-level
    flashLoan call, or else the vault's FlashLoan events grouped by vault and recipient. */
module BalancerExtractor {
  import opened Text
  import opened ScanTypes
  import opened Verifiers

  /** The decoded top-level call of a transaction, if it is a flashLoan. */
  datatype TopCall = NoFlashLoan | FlashLoanCall(receiver: string, tokens: seq<string>, amounts: seq<Option<nat>>, dataNonEmpty: bool) | BadCall

  datatype ObservedTx = ObservedTx(hash: string, block: nat, to: string, call: TopCall)

  datatype Extraction = Extracted(interactions: seq<Candidate>, legs: seq<Leg>) | ExtractError

  datatype GroupKey = GroupKey(provider: string, receiver: string)

  function KeyOf(e: ChainEvent): GroupKey {
    GroupKey(e.contract, if e.OtherEvent? then "" else e.receiver)
  }

  function OfVaults(vaults: set<string>): ChainEvent -> bool {
    (e: ChainEvent) => e.contract in vaults && e.BalancerFlashLoan?
  }

  // ---- grouping, as a specification ----

  /** The distinct keys of the first k events, in the order they are first seen. */
  function GroupKeys(events: seq<ChainEvent>, k: nat): seq<GroupKey>
    requires k <= |events|
  {
    if k == 0 then [] else
      var before := GroupKeys(events, k - 1);
      if KeyOf(events[k - 1]) in before then before else before + [KeyOf(events[k - 1])]
  }

  /** Those of the first k events that belong to a group. */
  function GroupEvents(events: seq<ChainEvent>, key: GroupKey, k: nat): (group: seq<ChainEvent>)
    requires k <= |events|
    ensures forall e :: e in group ==> e in events && KeyOf(e) == key
  {
    if k == 0 then [] else GroupEvents(events, key, k - 1) + if KeyOf(events[k - 1]) == key then [events[k - 1]] else []
  }

  function EventLeg(key: Key, index: nat, e: ChainEvent): Leg {
    if e.BalancerFlashLoan? then Leg(key, index, e.asset, None, None, e.amount, None, e.fee, None, false, false, false, None)
    else Leg(key, index, "", None, None, None, None, None, None, false, false, false, None)
  }

  function LegsOfEvents(key: Key, group: seq<ChainEvent>): seq<Leg> {
    seq(|group|, i requires 0 <= i < |group| => EventLeg(key, i, group[i]))
  }

  function EventCandidate(tx: ObservedTx, ordinal: nat, key: GroupKey): Candidate {
    Candidate(Key(tx.hash, ordinal), tx.block, "balancer_v2", "flashLoan:event", key.provider, key.receiver, 1, None)
  }

  function EventInteractions(tx: ObservedTx, events: seq<ChainEvent>): seq<Candidate> {
    var keys := GroupKeys(events, |events|);
    seq(|keys|, n requires 0 <= n < |keys| => EventCandidate(tx, n, keys[n]))
  }

  /** The legs of the n-th group: one for each of its events. */
  function EventLegs(tx: ObservedTx, events: seq<ChainEvent>, n: nat): seq<Leg>
    requires n < |GroupKeys(events, |events|)|
  {
    LegsOfEvents(Key(tx.hash, n), GroupEvents(events, GroupKeys(events, |events|)[n], |events|))
  }

  function AllEventLegs(tx: ObservedTx, events: seq<ChainEvent>, n: nat): seq<Leg>
    requires n <= |GroupKeys(events, |events|)|
  {
    if n == 0 then [] else AllEventLegs(tx, events, n - 1) + EventLegs(tx, events, n - 1)
  }

  function FromEvents(tx: ObservedTx, events: seq<ChainEvent>): Extraction {
    Extracted(EventInteractions(tx, events), AllEventLegs(tx, events, |GroupKeys(events, |events|)|))
  }

  // ---- grouping, as the extractor does it ----

  datatype Group = Group(interaction: Candidate, legs: seq<Leg>)

  ghost predicate Grouping(tx: ObservedTx, events: seq<ChainEvent>, k: nat, order: seq<GroupKey>, grouped: map<GroupKey, Group>)
    requires k <= |events|
  {
    && order == GroupKeys(events, k)
    && (forall key :: key in grouped <==> key in order)
    && (forall n :: 0 <= n < |order| ==> IsGroup(tx, events, k, n, order[n], grouped[order[n]]))
  }

  lemma {:induction false} KeysDistinct(events: seq<ChainEvent>, k: nat)
    requires k <= |events|
    ensures forall i, j :: 0 <= i < j < |GroupKeys(events, k)| ==> GroupKeys(events, k)[i] != GroupKeys(events, k)[j]
    ensures forall key :: key in GroupKeys(events, k) <==> exists i :: 0 <= i < k && KeyOf(events[i]) == key
  {
    if k > 0 {
      KeysDistinct(events, k - 1);
    }
  }

  lemma {:induction false} LegsGrow(key: Key, group: seq<ChainEvent>, e: ChainEvent)
    ensures |LegsOfEvents(key, group)| == |group|
    ensures LegsOfEvents(key, group + [e]) == LegsOfEvents(key, group) + [EventLeg(key, |group|, e)]
  {
  }

  lemma {:induction false} NoEventsYet(events: seq<ChainEvent>, key: GroupKey, k: nat)
    requires k <= |events| && key !in GroupKeys(events, k)
    ensures GroupEvents(events, key, k) == []
  {
    if k > 0 {
      NoEventsYet(events, key, k - 1);
    }
  }

  /** The group of a key as it is before an event of that key is added. */
  ghost predicate IsGroup(tx: ObservedTx, events: seq<ChainEvent>, k: nat, n: nat, key: GroupKey, group: Group)
    requires k <= |events|
  {
    group == Group(EventCandidate(tx, n, key), LegsOfEvents(Key(tx.hash, n), GroupEvents(events, key, k)))
  }

  lemma {:induction false} GroupAppends(tx: ObservedTx, events: seq<ChainEvent>, k: nat, n: nat, group: Group)
    requires k < |events| && IsGroup(tx, events, k, n, KeyOf(events[k]), group)
    ensures
      var leg := EventLeg(group.interaction.key, |group.legs|, events[k]);
      IsGroup(tx, events, k + 1, n, KeyOf(events[k]), group.(legs := group.legs + [leg]))
  {
    hide KeyOf, EventLeg, EventCandidate, LegsOfEvents, GroupEvents;
    CandidateKey(tx, n, KeyOf(events[k]));
    EventsStep(events, KeyOf(events[k]), k);
    LegsGrow(Key(tx.hash, n), GroupEvents(events, KeyOf(events[k]), k), events[k]);
  }

  lemma {:induction false} GroupOpens(tx: ObservedTx, events: seq<ChainEvent>, k: nat, n: nat)
    requires k < |events| && KeyOf(events[k]) !in GroupKeys(events, k)
    ensures IsGroup(tx, events, k, n, KeyOf(events[k]), Group(EventCandidate(tx, n, KeyOf(events[k])), []))
  {
    hide KeyOf, EventLeg, EventCandidate, GroupKeys;
    NoEventsYet(events, KeyOf(events[k]), k);
  }

  /** One turn of the grouping loop: open the group of a new key, then add the event's leg to it. */
  lemma {:induction false} GroupStep(tx: ObservedTx, events: seq<ChainEvent>, k: nat, order: seq<GroupKey>,
                                     grouped: map<GroupKey, Group>, group: Group)
    requires k < |events| && Grouping(tx, events, k, order, grouped)
    requires group == (if KeyOf(events[k]) in grouped then grouped[KeyOf(events[k])]
                       else Group(EventCandidate(tx, |order|, KeyOf(events[k])), []))
    ensures
      var key, leg := KeyOf(events[k]), EventLeg(group.interaction.key, |group.legs|, events[k]);
      Grouping(tx, events, k + 1, if key in grouped then order else order + [key], grouped[key := group.(legs := group.legs + [leg])])
  {
    hide KeyOf, EventLeg, EventCandidate, LegsOfEvents, GroupEvents, GroupKeys, IsGroup;
    var key := KeyOf(events[k]);
    KeysDistinct(events, k);
    KeysStep(events, k);
    if key !in grouped {
      GroupOpens(tx, events, k, |order|);
    }
    var next := if key in grouped then order else order + [key];
    var after := grouped[key := group.(legs := group.legs + [EventLeg(group.interaction.key, |group.legs|, events[k])])];
    forall n | 0 <= n < |next| ensures next[n] in after && IsGroup(tx, events, k + 1, n, next[n], after[next[n]]) {
      if next[n] == key {
        GroupAppends(tx, events, k, n, group);
      } else {
        OtherGroup(tx, events, k, n, next[n], after[next[n]]);
      }
    }
  }

  lemma {:induction false} OtherGroup(tx: ObservedTx, events: seq<ChainEvent>, k: nat, n: nat, key: GroupKey, group: Group)
    requires k < |events| && KeyOf(events[k]) != key && IsGroup(tx, events, k, n, key, group)
    ensures IsGroup(tx, events, k + 1, n, key, group)
  {
    EventsStep(events, key, k);
  }

  lemma {:induction false} KeysStep(events: seq<ChainEvent>, k: nat)
    requires k < |events|
    ensures GroupKeys(events, k + 1) == if KeyOf(events[k]) in GroupKeys(events, k) then GroupKeys(events, k) else GroupKeys(events, k) + [KeyOf(events[k])]
  {
    hide KeyOf;
  }

  lemma {:induction false} EventsStep(events: seq<ChainEvent>, key: GroupKey, k: nat)
    requires k < |events|
    ensures GroupEvents(events, key, k + 1) == if KeyOf(events[k]) == key then GroupEvents(events, key, k) + [events[k]] else GroupEvents(events, key, k)
  {
    hide KeyOf;
  }

  lemma {:induction false} CandidateKey(tx: ObservedTx, n: nat, key: GroupKey)
    ensures EventCandidate(tx, n, key).key == Key(tx.hash, n)
  {
  }

  method GroupFlashLoans(tx: ObservedTx, events: seq<ChainEvent>) returns (order: seq<GroupKey>, grouped: map<GroupKey, Group>)
    requires forall e :: e in events ==> e.BalancerFlashLoan?
    ensures Grouping(tx, events, |events|, order, grouped)
  {
    order, grouped := [], map[];
    for k := 0 to |events|
      invariant Grouping(tx, events, k, order, grouped)
    {
      var event := events[k];
      assert event in events;
      var key := GroupKey(event.contract, event.receiver);
      var group := if key in grouped then grouped[key] else Group(EventCandidate(tx, |order|, key), []);
      GroupStep(tx, events, k, order, grouped, group);
      hide Grouping;
      if key !in grouped {
        order := order + [key];
      }
      var leg := Leg(group.interaction.key, |group.legs|, event.asset, None, None, event.amount, None, event.fee, None, false, false, false, None);
      grouped := grouped[key := group.(legs := group.legs + [leg])];
    }
  }

  lemma {:induction false} GroupAt(tx: ObservedTx, events: seq<ChainEvent>, order: seq<GroupKey>,
                                   grouped: map<GroupKey, Group>, n: nat)
    requires Grouping(tx, events, |events|, order, grouped) && n < |order|
    ensures |order| == |EventInteractions(tx, events)| == |GroupKeys(events, |events|)| && order[n] in grouped
    ensures grouped[order[n]] == Group(EventInteractions(tx, events)[n], EventLegs(tx, events, n))
  {
  }

  /** Lists the groups in the order they were opened. */
  method CollectGroups(tx: ObservedTx, ghost events: seq<ChainEvent>, order: seq<GroupKey>, grouped: map<GroupKey, Group>)
      returns (interactions: seq<Candidate>, legs: seq<Leg>)
    requires Grouping(tx, events, |events|, order, grouped)
    ensures Extracted(interactions, legs) == FromEvents(tx, events)
  {
    hide GroupEvents, GroupKeys, EventLegs, EventInteractions;
    interactions, legs := [], [];
    if |order| > 0 {
      GroupAt(tx, events, order, grouped, 0);
    } else {
      NoGroups(tx, events);
    }
    for n := 0 to |order|
      invariant |interactions| == n && forall m :: 0 <= m < n ==> interactions[m] == EventInteractions(tx, events)[m]
      invariant legs == AllEventLegs(tx, events, n)
    {
      GroupAt(tx, events, order, grouped, n);
      var group := grouped[order[n]];
      interactions := interactions + [group.interaction];
      legs := legs + group.legs;
    }
    assert interactions == EventInteractions(tx, events);
  }

  lemma {:induction false} NoGroups(tx: ObservedTx, events: seq<ChainEvent>)
    requires GroupKeys(events, |events|) == []
    ensures EventInteractions(tx, events) == []
  {
  }

  method ExtractFromFlashLoanEvents(vaults: set<string>, chain: Chain, tx: ObservedTx) returns (result: Extraction)
    ensures result == FromEvents(tx, AllKept(OfVaults(vaults), EventsOf(chain, tx.hash)))
  {
    hide Grouping, EventLegs;
    var events := KeepEvents(OfVaults(vaults), EventsOf(chain, tx.hash));
    if |events| == 0 {
      NoGroups(tx, events);
      return Extracted([], []);
    }
    var order, grouped := GroupFlashLoans(tx, events);
    var interactions, legs := CollectGroups(tx, events, order, grouped);
    return Extracted(interactions, legs);
  }

  // ---- the extractor over a list of transactions ----

  predicate CallsVault(vaults: set<string>, tx: ObservedTx) {
    tx.to != "" && tx.to in vaults && !tx.call.NoFlashLoan?
  }

  function CallLeg(tx: ObservedTx, i: nat): Leg
    requires tx.call.FlashLoanCall? && i < |tx.call.tokens|
  {
    Leg(Key(tx.hash, 0), i, tx.call.tokens[i], None, None,
        if i < |tx.call.amounts| then tx.call.amounts[i] else None, None, None, None, false, false, false, None)
  }

  function FromCall(tx: ObservedTx): Extraction
    requires !tx.call.NoFlashLoan?
  {
    if tx.call.BadCall? then ExtractError else
      Extracted([Candidate(Key(tx.hash, 0), tx.block, "balancer_v2", "flashLoan", tx.to, tx.call.receiver, 2, Some(tx.call.dataNonEmpty))],
                seq(|tx.call.tokens|, i requires 0 <= i < |tx.call.tokens| => CallLeg(tx, i)))
  }

  function FromTx(vaults: set<string>, chain: Chain, tx: ObservedTx): Extraction {
    if CallsVault(vaults, tx) then FromCall(tx) else FromEvents(tx, AllKept(OfVaults(vaults), EventsOf(chain, tx.hash)))
  }

  function ExtractUpTo(vaults: set<string>, chain: Chain, txs: seq<ObservedTx>, k: nat): Extraction
    requires k <= |txs|
  {
    if k == 0 then Extracted([], []) else
      var before, here := ExtractUpTo(vaults, chain, txs, k - 1), FromTx(vaults, chain, txs[k - 1]);
      if before.ExtractError? || here.ExtractError? then ExtractError
      else Extracted(before.interactions + here.interactions, before.legs + here.legs)
  }

  method ExtractFlashLoan(tx: ObservedTx) returns (result: Extraction)
    requires !tx.call.NoFlashLoan?
    ensures result == FromCall(tx)
  {
    if tx.call.BadCall? {
      return ExtractError;
    }
    var interaction := Candidate(Key(tx.hash, 0), tx.block, "balancer_v2", "flashLoan", tx.to, tx.call.receiver, 2, Some(tx.call.dataNonEmpty));
    var legs: seq<Leg> := [];
    for i := 0 to |tx.call.tokens|
      invariant |legs| == i && forall j :: 0 <= j < i ==> legs[j] == CallLeg(tx, j)
    {
      var amount := if i < |tx.call.amounts| then tx.call.amounts[i] else None;
      legs := legs + [Leg(interaction.key, i, tx.call.tokens[i], None, None, amount, None, None, None, false, false, false, None)];
    }
    assert legs == seq(|tx.call.tokens|, i requires 0 <= i < |tx.call.tokens| => CallLeg(tx, i));
    return Extracted([interaction], legs);
  }

  method Extract(vaults: set<string>, chain: Chain, txs: seq<ObservedTx>) returns (result: Extraction)
    ensures result == ExtractUpTo(vaults, chain, txs, |txs|)
  {
    hide FromEvents, FromCall;
    var interactions: seq<Candidate>, legs: seq<Leg> := [], [];
    for k := 0 to |txs|
      invariant Extracted(interactions, legs) == ExtractUpTo(vaults, chain, txs, k)
    {
      var here: Extraction;
      if CallsVault(vaults, txs[k]) {
        here := ExtractFlashLoan(txs[k]);
      } else {
        here := ExtractFromFlashLoanEvents(vaults, chain, txs[k]);
      }
      if here.ExtractError? {
        FailedStays(vaults, chain, txs, k + 1);
        return ExtractError;
      }
      interactions := interactions + here.interactions;
      legs := legs + here.legs;
    }
    return Extracted(interactions, legs);
  }

  lemma {:induction false} FailedStays(vaults: set<string>, chain: Chain, txs: seq<ObservedTx>, k: nat)
    requires k <= |txs| && ExtractUpTo(vaults, chain, txs, k).ExtractError?
    ensures ExtractUpTo(vaults, chain, txs, |txs|).ExtractError?
    decreases |txs| - k
  {
    if k < |txs| {
      FailedStays(vaults, chain, txs, k + 1);
    }
  }

  // ---- one leg for each vault event ----

  /** The events, listed group by group: the n first groups of those keys, as of the first k events. */
  function Regrouped(events: seq<ChainEvent>, keys: seq<GroupKey>, n: nat, k: nat): seq<ChainEvent>
    requires n <= |keys| && k <= |events|
  {
    if n == 0 then [] else Regrouped(events, keys, n - 1, k) + GroupEvents(events, keys[n - 1], k)
  }

  lemma {:induction false} GroupGrows(events: seq<ChainEvent>, key: GroupKey, k: nat)
    requires 0 < k <= |events|
    ensures multiset(GroupEvents(events, key, k))
         == multiset(GroupEvents(events, key, k - 1)) + if KeyOf(events[k - 1]) == key then multiset{events[k - 1]} else multiset{}
  {
    hide KeyOf;
  }

  lemma {:induction false} KeyIsNew(keys: seq<GroupKey>, n: nat, key: GroupKey)
    requires 0 < n <= |keys| && forall i, j :: 0 <= i < j < |keys| ==> keys[i] != keys[j]
    ensures key in keys[..n] <==> key in keys[..n - 1] || key == keys[n - 1]
    ensures keys[n - 1] !in keys[..n - 1]
  {
    assert keys[..n] == keys[..n - 1] + [keys[n - 1]];
  }

  lemma {:induction false} RegroupStep(events: seq<ChainEvent>, keys: seq<GroupKey>, n: nat, k: nat)
    requires n <= |keys| && 0 < k <= |events| && forall i, j :: 0 <= i < j < |keys| ==> keys[i] != keys[j]
    ensures multiset(Regrouped(events, keys, n, k))
         == multiset(Regrouped(events, keys, n, k - 1)) + if KeyOf(events[k - 1]) in keys[..n] then multiset{events[k - 1]} else multiset{}
  {
    hide GroupEvents, KeyOf;
    if n > 0 {
      RegroupStep(events, keys, n - 1, k);
      GroupGrows(events, keys[n - 1], k);
      KeyIsNew(keys, n, KeyOf(events[k - 1]));
    }
  }

  lemma {:induction false} RegroupedNone(events: seq<ChainEvent>, keys: seq<GroupKey>, n: nat)
    requires n <= |keys|
    ensures Regrouped(events, keys, n, 0) == []
  {
    if n > 0 {
      RegroupedNone(events, keys, n - 1);
    }
  }

  lemma {:induction false} RegroupedAll(events: seq<ChainEvent>, keys: seq<GroupKey>, k: nat)
    requires k <= |events| && forall i, j :: 0 <= i < j < |keys| ==> keys[i] != keys[j]
    requires forall i :: 0 <= i < |events| ==> KeyOf(events[i]) in keys
    ensures multiset(Regrouped(events, keys, |keys|, k)) == multiset(events[..k])
  {
    hide Regrouped, KeyOf;
    if k == 0 {
      RegroupedNone(events, keys, |keys|);
    } else {
      RegroupedAll(events, keys, k - 1);
      RegroupStep(events, keys, |keys|, k);
      assert keys[..|keys|] == keys;
      assert events[..k] == events[..k - 1] + [events[k - 1]];
    }
  }

  /** A leg carries the token, amount and fee of an event. */
  predicate Carries(leg: Leg, e: ChainEvent) {
    e.BalancerFlashLoan? && leg.asset == e.asset && leg.borrowed == e.amount && leg.fee == e.fee
  }

  lemma {:induction false} GroupLegsCarry(key: Key, group: seq<ChainEvent>)
    requires forall e :: e in group ==> e.BalancerFlashLoan?
    ensures |LegsOfEvents(key, group)| == |group| && forall i :: 0 <= i < |group| ==> Carries(LegsOfEvents(key, group)[i], group[i])
  {
  }

  lemma {:induction false} CarryBoth(a: seq<Leg>, b: seq<ChainEvent>, c: seq<Leg>, d: seq<ChainEvent>)
    requires |a| == |b| && forall i :: 0 <= i < |a| ==> Carries(a[i], b[i])
    requires |c| == |d| && forall i :: 0 <= i < |c| ==> Carries(c[i], d[i])
    ensures forall i :: 0 <= i < |a + c| ==> Carries((a + c)[i], (b + d)[i])
  {
    hide Carries;
  }

  lemma {:induction false} LegsCarryEvents(tx: ObservedTx, events: seq<ChainEvent>, n: nat)
    requires n <= |GroupKeys(events, |events|)| && forall e :: e in events ==> e.BalancerFlashLoan?
    ensures
      var legs, listed := AllEventLegs(tx, events, n), Regrouped(events, GroupKeys(events, |events|), n, |events|);
      |legs| == |listed| && forall i :: 0 <= i < |legs| ==> Carries(legs[i], listed[i])
  {
    hide GroupEvents, GroupKeys, Carries, LegsOfEvents;
    if n > 0 {
      LegsCarryEvents(tx, events, n - 1);
      var keys := GroupKeys(events, |events|);
      var group := GroupEvents(events, keys[n - 1], |events|);
      GroupLegsCarry(Key(tx.hash, n - 1), group);
      CarryBoth(AllEventLegs(tx, events, n - 1), Regrouped(events, keys, n - 1, |events|), EventLegs(tx, events, n - 1), group);
    }
  }

  /** Nothing is lost or invented: the legs of a transaction carry its vault events, each exactly as
      often as it occurs, listed group by group. */
  lemma {:induction false} LegsConserveEvents(tx: ObservedTx, events: seq<ChainEvent>)
    requires forall e :: e in events ==> e.BalancerFlashLoan?
    ensures
      var keys := GroupKeys(events, |events|);
      var legs, listed := FromEvents(tx, events).legs, Regrouped(events, keys, |keys|, |events|);
      && multiset(listed) == multiset(events) && |legs| == |listed| == |events|
      && forall i :: 0 <= i < |legs| ==> Carries(legs[i], listed[i])
  {
    var keys := GroupKeys(events, |events|);
    KeysDistinct(events, |events|);
    RegroupedAll(events, keys, |events|);
    assert events[..|events|] == events;
    LegsCarryEvents(tx, events, |keys|);
    var listed := Regrouped(events, keys, |keys|, |events|);
    assert |multiset(listed)| == |listed| && |multiset(events)| == |events|;
  }

  // ---- groups are numbered in the order they are first seen ----

  lemma {:induction false} KeysGrow(events: seq<ChainEvent>, j: nat, k: nat)
    requires j <= k <= |events|
    ensures GroupKeys(events, j) <= GroupKeys(events, k)
  {
    if j < k {
      KeysGrow(events, j, k - 1);
    }
  }

  /** Candidate n is the group whose first event comes after the first events of exactly n others:
      ordinals are dense and follow the order of first appearance. */
  lemma {:induction false} OrdinalsFollowEvents(tx: ObservedTx, events: seq<ChainEvent>, j: nat, n: nat)
    requires j < |events| && n < |EventInteractions(tx, events)|
    requires KeyOf(events[j]) == GroupKeys(events, |events|)[n] && forall i :: 0 <= i < j ==> KeyOf(events[i]) != KeyOf(events[j])
    ensures |GroupKeys(events, j)| == n
    ensures EventInteractions(tx, events)[n].key == Key(tx.hash, n)
    ensures EventInteractions(tx, events)[n].provider == events[j].contract
  {
    hide GroupKeys, GroupEvents;
    KeysDistinct(events, j);
    KeysStep(events, j);
    KeysGrow(events, j + 1, |events|);
    KeysDistinct(events, |events|);
    assert GroupKeys(events, |events|)[|GroupKeys(events, j)|] == KeyOf(events[j]);
  }

  // ---- event-derived candidates verify as strict ----

  /** The vault events that record the same loan as e. */
  function SameLoan(e: ChainEvent): ChainEvent -> bool {
    (x: ChainEvent) => x.BalancerFlashLoan? && e.BalancerFlashLoan? && x.contract == e.contract && x.receiver == e.receiver
                       && x.asset == e.asset && x.amount == e.amount
  }

  /** The verifier finds, for an event's own leg, the first log that records the same loan. */
  lemma {:induction false} LoanIsFirstRecord(chain: Chain, c: Candidate, leg: Leg, e: ChainEvent)
    requires e in EventsOf(chain, c.key.tx) && e.BalancerFlashLoan? && e.contract == c.provider && e.receiver == c.receiver
    requires leg.asset == e.asset && leg.borrowed == e.amount
    ensures LoanFor(c, leg, ProviderEvents(chain, c, Balancer), Balancer)
         == if e.amount.Some? then Found(SameLoan(e), EventsOf(chain, c.key.tx)) else None
    ensures Found(SameLoan(e), EventsOf(chain, c.key.tx)).Some?
  {
    var events := EventsOf(chain, c.key.tx);
    var i :| 0 <= i < |events| && events[i] == e;
    assert SameLoan(e)(events[i]);
    LoanFits(c, leg, ProviderEvents(chain, c, Balancer), Balancer);
    if e.amount.Some? {
      FoundInKept(OfProvider(c.provider, Balancer), FitsLoan(leg.asset, leg.borrowed, c.receiver, Balancer), SameLoan(e), events, |events|);
      assert events[..|events|] == events;
    }
  }

  predicate HasAmount(e: ChainEvent) {
    e.BalancerFlashLoan? && e.amount.Some?
  }

  /** What the verifier finds for the i-th leg of the n-th event-derived candidate. */
  lemma {:induction false} LegMeetsFirstRecord(vaults: set<string>, chain: Chain, tx: ObservedTx, n: nat, i: nat)
    requires n < |EventInteractions(tx, AllKept(OfVaults(vaults), EventsOf(chain, tx.hash)))|
    requires i < |EventLegs(tx, AllKept(OfVaults(vaults), EventsOf(chain, tx.hash)), n)|
    ensures
      var events := AllKept(OfVaults(vaults), EventsOf(chain, tx.hash));
      var c, e := EventInteractions(tx, events)[n], GroupEvents(events, GroupKeys(events, |events|)[n], |events|)[i];
      var matching, first := ProviderEvents(chain, c, Balancer), Found(SameLoan(e), EventsOf(chain, tx.hash));
      && first.Some? && first.value.BalancerFlashLoan? && matching != []
      && LoanFor(c, EventLegs(tx, events, n)[i], matching, Balancer) == if HasAmount(e) then first else None
  {
    var logs := EventsOf(chain, tx.hash);
    var events := AllKept(OfVaults(vaults), logs);
    var c, e := EventInteractions(tx, events)[n], GroupEvents(events, GroupKeys(events, |events|)[n], |events|)[i];
    hide AllKept, FirstMatch, GroupKeys, GroupEvents, FitsLoan, OfProvider;
    GroupLogs(vaults, logs, n);
    assert e in GroupEvents(events, GroupKeys(events, |events|)[n], |events|);
    LoanIsFirstRecord(chain, c, EventLegs(tx, events, n)[i], e);
    InMatching(chain, c, e);
  }

  /** Every event-derived candidate of a successful transaction verifies as strict, provided each of
      its events carries an amount, as decoded logs do; and otherwise it is excluded. Each leg then
      has the fee of the first log that records the same vault, recipient, token and amount. */
  lemma {:induction false} EventCandidatesAreStrict(vaults: set<string>, chain: Chain, tx: ObservedTx, n: nat)
    requires Succeeded(chain, tx.hash)
    requires n < |EventInteractions(tx, AllKept(OfVaults(vaults), EventsOf(chain, tx.hash)))|
    ensures
      var events := AllKept(OfVaults(vaults), EventsOf(chain, tx.hash));
      var c, legs := EventInteractions(tx, events)[n], EventLegs(tx, events, n);
      var group := GroupEvents(events, GroupKeys(events, |events|)[n], |events|);
      && |legs| == |group| > 0
      && BalancerOutcome(chain, c, legs) ==
           if forall e :: e in group ==> HasAmount(e)
           then Judged(Accepted(true, false), Some(FirstRecords(chain, tx, legs, group)))
           else Judged(Excluded("flashloan_event_mismatch"), Some(legs))
  {
    var events := AllKept(OfVaults(vaults), EventsOf(chain, tx.hash));
    var c, legs := EventInteractions(tx, events)[n], EventLegs(tx, events, n);
    var group := GroupEvents(events, GroupKeys(events, |events|)[n], |events|);
    GroupNonEmpty(events, n);
    forall i | 0 <= i < |group| ensures MeetsFirst(chain, tx, c, legs[i], group[i]) {
      LegMeetsFirstRecord(vaults, chain, tx, n, i);
    }
    hide OfVaults, AllKept, GroupKeys, GroupEvents, MeetsFirst, BalancerOutcome, HasAmount, FirstRecords;
    OutcomeOfGroup(chain, tx, c, legs, group);
  }

  /** The verifier finds the first record of e for the leg, if e has an amount. */
  ghost predicate MeetsFirst(chain: Chain, tx: ObservedTx, c: Candidate, leg: Leg, e: ChainEvent) {
    var matching, first := ProviderEvents(chain, c, Balancer), Found(SameLoan(e), EventsOf(chain, tx.hash));
    && first.Some? && first.value.BalancerFlashLoan? && matching != []
    && LoanFor(c, leg, matching, Balancer) == if HasAmount(e) then first else None
  }

  lemma {:induction false} OutcomeOfGroup(chain: Chain, tx: ObservedTx, c: Candidate, legs: seq<Leg>, group: seq<ChainEvent>)
    requires Succeeded(chain, c.key.tx) && |legs| == |group| > 0
    requires forall i :: 0 <= i < |group| ==> MeetsFirst(chain, tx, c, legs[i], group[i])
    ensures BalancerOutcome(chain, c, legs) ==
            if forall e :: e in group ==> HasAmount(e)
            then Judged(Accepted(true, false), Some(FirstRecords(chain, tx, legs, group)))
            else Judged(Excluded("flashloan_event_mismatch"), Some(legs))
  {
    hide LoanFor, SameLoan, ProviderEvents, Found, HasAmount;
    var matching := ProviderEvents(chain, c, Balancer);
    assert MeetsFirst(chain, tx, c, legs[0], group[0]);
    if forall e :: e in group ==> HasAmount(e) {
      assert forall i :: 0 <= i < |group| ==> group[i] in group;
      assert BalancerLegs(c, legs, matching) == FirstRecords(chain, tx, legs, group);
    } else {
      var e :| e in group && !HasAmount(e);
      var i :| 0 <= i < |group| && group[i] == e;
      assert MeetsFirst(chain, tx, c, legs[i], group[i]);
    }
  }

  function FirstRecords(chain: Chain, tx: ObservedTx, legs: seq<Leg>, group: seq<ChainEvent>): seq<Leg>
    requires |legs| == |group|
  {
    seq(|legs|, i requires 0 <= i < |legs| => SettledBy(legs[i], Found(SameLoan(group[i]), EventsOf(chain, tx.hash))))
  }

  function SettledBy(leg: Leg, e: Option<ChainEvent>): Leg {
    if e.Some? && e.value.BalancerFlashLoan? then SettleBalancer(leg, e.value) else leg
  }

  lemma {:induction false} InMatching(chain: Chain, c: Candidate, e: ChainEvent)
    requires e in EventsOf(chain, c.key.tx) && e.BalancerFlashLoan? && e.contract == c.provider
    ensures e in ProviderEvents(chain, c, Balancer)
  {
  }

  lemma {:induction false} GroupNonEmpty(events: seq<ChainEvent>, n: nat)
    requires n < |GroupKeys(events, |events|)|
    ensures GroupEvents(events, GroupKeys(events, |events|)[n], |events|) != []
  {
    KeysDistinct(events, |events|);
    assert GroupKeys(events, |events|)[n] in GroupKeys(events, |events|);
    var i :| 0 <= i < |events| && KeyOf(events[i]) == GroupKeys(events, |events|)[n];
    GroupHas(events, GroupKeys(events, |events|)[n], |events|, i);
  }

  lemma {:induction false} GroupHas(events: seq<ChainEvent>, key: GroupKey, k: nat, i: nat)
    requires i < k <= |events| && KeyOf(events[i]) == key
    ensures GroupEvents(events, key, k) != []
  {
    hide KeyOf;
    if i < k - 1 {
      GroupHas(events, key, k - 1, i);
    }
  }

  lemma {:induction false} GroupLogs(vaults: set<string>, logs: seq<ChainEvent>, n: nat)
    requires n < |GroupKeys(AllKept(OfVaults(vaults), logs), |AllKept(OfVaults(vaults), logs)|)|
    ensures
      var events := AllKept(OfVaults(vaults), logs);
      var key := GroupKeys(events, |events|)[n];
      forall e :: e in GroupEvents(events, key, |events|) ==>
        e in logs && e.BalancerFlashLoan? && e.contract == key.provider && e.receiver == key.receiver
  {
  }
}
