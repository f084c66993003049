/** Operator-sent TRC-20 transfers and the full-tuple check of a pasted transaction id. */
module Tron {
  import opened Texts
  import opened Wrappers

  datatype Transfer = Transfer(contract: string, sender: string, recipient: string, amount: nat)

  datatype Transaction = Transaction(block: Option<nat>, receipt: Option<string>, contractResult: Option<string>,
                                     transfers: seq<Transfer>)

  /** The confirmed transactions, by id, and the two addresses every claim is checked against. */
  datatype Chain = Chain(transactions: map<string, Transaction>, contract: string, hotWallet: string)

  datatype Reason = NoSuchTransaction | FailedOnChain | NoTransfer | NoMatch

  datatype Verification = Verified(block: Option<nat>, index: nat) | Rejected(reason: Reason)

  predicate ReceiptSucceeded(t: Transaction) {
    && t.receipt.Some? && Upper(t.receipt.value) == "SUCCESS"
    && (t.contractResult.None? || Upper(t.contractResult.value) == "SUCCESS")
  }

  predicate Matches(chain: Chain, t: Transfer, destination: string, net: int) {
    t.contract == chain.contract && t.sender == chain.hotWallet && t.recipient == destination && t.amount == net
  }

  /** Is this transaction a successful one holding the claimed transfer at `index`? */
  predicate Backs(chain: Chain, txid: string, index: nat, destination: string, net: int) {
    && txid in chain.transactions
    && ReceiptSucceeded(chain.transactions[txid])
    && index < |chain.transactions[txid].transfers|
    && Matches(chain, chain.transactions[txid].transfers[index], destination, net)
  }

  /** The first transfer that matches the claim. */
  function FirstMatch(chain: Chain, transfers: seq<Transfer>, destination: string, net: int): (r: Option<nat>)
    ensures r.Some? ==> r.value < |transfers| && Matches(chain, transfers[r.value], destination, net)
    ensures r.None? <==> forall i :: 0 <= i < |transfers| ==> !Matches(chain, transfers[i], destination, net)
  {
    if transfers == [] then None
    else if Matches(chain, transfers[0], destination, net) then Some(0)
    else match FirstMatch(chain, transfers[1..], destination, net)
      case Some(i) =>
        assert transfers[1..][i] == transfers[i + 1];
        Some(i + 1)
      case None =>
        assert forall i :: 0 < i < |transfers| ==> transfers[i] == transfers[1..][i - 1];
        None
  }

  /** The verdict on "is this txid the transfer the operator says it is?". */
  function Verdict(chain: Chain, txid: string, destination: string, net: int): (v: Verification)
    ensures v.Verified? ==> Backs(chain, txid, v.index, destination, net) && v.block == chain.transactions[txid].block
    ensures v.Verified? <==> exists index: nat :: Backs(chain, txid, index, destination, net)
  {
    if txid !in chain.transactions then Rejected(NoSuchTransaction)
    else
      var t := chain.transactions[txid];
      if !ReceiptSucceeded(t) then Rejected(FailedOnChain)
      else if t.transfers == [] then Rejected(NoTransfer)
      else match FirstMatch(chain, t.transfers, destination, net)
        case Some(i) =>
          assert Backs(chain, txid, i, destination, net);
          Verified(t.block, i)
        case None => Rejected(NoMatch)
  }

  /** `TronTxVerifier.verify`: scans the transfers and stops at the first full match. */
  method Verify(chain: Chain, txid: string, destination: string, net: int) returns (v: Verification)
    ensures v == Verdict(chain, txid, destination, net)
  {
    if txid !in chain.transactions {
      return Rejected(NoSuchTransaction);
    }
    var t := chain.transactions[txid];
    if !ReceiptSucceeded(t) {
      return Rejected(FailedOnChain);
    }
    if t.transfers == [] {
      return Rejected(NoTransfer);
    }
    ghost var first := FirstMatch(chain, t.transfers, destination, net);
    for i := 0 to |t.transfers|
      invariant match FirstMatch(chain, t.transfers[i..], destination, net)
        case Some(k) => first == Some(i + k)
        case None => first == None
    {
      var transfer := t.transfers[i];
      assert t.transfers[i..][1..] == t.transfers[i + 1..];
      if transfer.contract != chain.contract {
        continue;
      }
      if transfer.sender != chain.hotWallet {
        continue;
      }
      if transfer.recipient != destination {
        continue;
      }
      if transfer.amount != net {
        continue;
      }
      return Verified(t.block, i);
    }
    return Rejected(NoMatch);
  }

  /** Blocks on top of and including the transaction's own. */
  function Confirmations(height: int, block: Option<nat>): int {
    match block
    case None => 0
    case Some(n) => if height - n + 1 > 0 then height - n + 1 else 0
  }
}
