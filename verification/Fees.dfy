/** Withdrawal fee quotes. The miner fee is an input: whatever the rate source answered,
    times the assumed size, rounded up. */
module Fees {
  import opened Wrappers

  datatype FeeQuote = FeeQuote(fee: int, net: int, walletFee: int) {
    /** Custody committed to the payout: what leaves the wallet in total. */
    function Committed(): int {
      net + walletFee
    }
  }

  datatype FeePolicy =
    | MinerFee(minerFee: nat, absorb: bool, dustThreshold: nat)
    | FlatFee(flatFee: nat, dustThreshold: nat)

  datatype FeeError = DustAmount

  function QuoteBtcFee(gross: int, minerFee: nat, absorb: bool, dustThreshold: nat): Result<FeeQuote, FeeError> {
    if !absorb && minerFee >= gross then Failure(DustAmount)
    else
      var quote := if absorb then FeeQuote(0, gross, minerFee) else FeeQuote(minerFee, gross - minerFee, minerFee);
      if quote.net <= dustThreshold then Failure(DustAmount) else Success(quote)
  }

  function FlatFeeQuote(gross: int, flatFee: nat, dustThreshold: nat): Result<FeeQuote, FeeError> {
    if flatFee >= gross || gross - flatFee <= dustThreshold then Failure(DustAmount)
    else Success(FeeQuote(flatFee, gross - flatFee, 0))
  }

  function QuoteFor(policy: FeePolicy, gross: int): Result<FeeQuote, FeeError> {
    match policy
    case MinerFee(minerFee, absorb, dust) => QuoteBtcFee(gross, minerFee, absorb, dust)
    case FlatFee(flatFee, dust) => FlatFeeQuote(gross, flatFee, dust)
  }

  /** Does the user pay for what the wallet commits beyond the net amount? */
  predicate Deducts(policy: FeePolicy) {
    policy.FlatFee? || !policy.absorb
  }

  /** A usable quote splits the gross exactly, commits something, and under deduction never
      commits more custody than the user gave up. */
  ghost predicate Sound(q: FeeQuote, gross: int) {
    q.fee + q.net == gross && q.fee >= 0 && q.net >= 0 && q.walletFee >= 0 && q.Committed() > 0
  }

  ghost predicate Covered(q: FeeQuote, gross: int) {
    Sound(q, gross) && q.Committed() <= gross
  }

  lemma QuotesAreSound(policy: FeePolicy, gross: int)
    requires QuoteFor(policy, gross).Success?
    ensures Sound(QuoteFor(policy, gross).value, gross)
    ensures Covered(QuoteFor(policy, gross).value, gross) <==>
      Deducts(policy) || policy.minerFee == 0
  {
  }
}
