/** The records that pass between extractor, verifiers and runner (scanner/types.go), for one
    chain. Addresses and hashes are their normalised text; an amount that is absent is None. An
    interaction's id is a hash of chain, transaction and ordinal, so it is named by those. */
module ScanTypes {
  import opened Text
  import opened TraceTree

  /** Block numbers are below this. */
  const UINT64 := 0x1_0000_0000_0000_0000

  datatype Key = Key(tx: string, ordinal: nat)

  datatype Candidate = Candidate(key: Key, block: nat, protocol: string, entrypoint: string, provider: string,
                                 receiver: string, level: nat, dataNonEmpty: Option<bool>)

  datatype Leg = Leg(key: Key, index: nat, asset: string, side: Option<string>, amountIn: Option<nat>,
                     borrowed: Option<nat>, premium: Option<nat>, fee: Option<nat>, rateMode: Option<nat>,
                     openedDebt: bool, strict: bool, eventSeen: bool, settlement: Option<string>)

  datatype Verdict = Verdict(verified: bool, strict: bool, callbackSeen: bool, settlementSeen: bool,
                             repaymentSeen: bool, debtOpening: bool, exclusion: Option<string>)

  /** A decoded log of a transaction. */
  datatype ChainEvent =
    | AaveFlashLoan(contract: string, receiver: string, asset: string, amount: Option<nat>, mode: nat, premium: Option<nat>)
    | BalancerFlashLoan(contract: string, receiver: string, asset: string, amount: Option<nat>, fee: Option<nat>)
    | UniswapSwap(contract: string, receiver: string, in0: Option<nat>, in1: Option<nat>, out0: Option<nat>, out1: Option<nat>)
    | OtherEvent(contract: string)

  /** What the trace provider answers for a transaction. */
  datatype TraceAnswer = Traced(root: CallFrame) | NoTrace | TraceError(message: string)

  datatype Chain = Chain(status: map<string, nat>, events: map<string, seq<ChainEvent>>, traces: map<string, TraceAnswer>)

  /** A verifier's answer: no legs means the stored legs are left alone. */
  datatype Outcome = Judged(verdict: Verdict, legs: Option<seq<Leg>>) | VerifyError

  function EventsOf(chain: Chain, tx: string): seq<ChainEvent> {
    if tx in chain.events then chain.events[tx] else []
  }

  predicate Succeeded(chain: Chain, tx: string) {
    tx in chain.status && chain.status[tx] == 1
  }

  function Excluded(reason: string): Verdict {
    Verdict(false, false, false, false, false, false, Some(reason))
  }
}
