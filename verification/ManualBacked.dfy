/** Operator-sent withdrawals are backed by the chain, one transaction each. */
module ManualBacked {
  import opened Texts
  import opened Wrappers
  import opened Sums
  import opened Ledger
  import opened Fees
  import opened Withdrawals
  import opened MoneyPath
  import opened MoneyFlow
  import opened Submission
  import Tron

  predicate Sent(w: Withdrawal) {
    w.backend == ManualTron && (w.status == Broadcast || w.status == Confirmed)
  }

  /** A successful transaction holds a hot-wallet transfer of exactly this net amount to this
      destination. */
  ghost predicate BackedBy(chain: Tron.Chain, w: Withdrawal) {
    && w.txid.Some? && w.net.Some?
    && exists index: nat :: Tron.Backs(chain, w.txid.value, index, w.destination, w.net.value)
  }

  ghost predicate RowBacked(chain: Tron.Chain, w: Withdrawal) {
    Sent(w) ==> BackedBy(chain, w)
  }

  predicate TxidsDistinct(ws: seq<Withdrawal>) {
    forall i, j :: 0 <= i < j < |ws| && ws[i].txid.Some? ==> ws[i].txid != ws[j].txid
  }

  ghost predicate ChainInv(cfg: Config, s: Sys) {
    TxidsDistinct(s.ws) && forall i :: 0 <= i < |s.ws| ==> RowBacked(cfg.chain, s.ws[i])
  }

  /** What a step may do to one row: keep its transaction id or take a free one, and stay backed. */
  ghost predicate RowKeepsChain(chain: Tron.Chain, ws: seq<Withdrawal>, i: nat, w: Withdrawal, w': Withdrawal) {
    (w'.txid == w.txid || TxidFree(ws, i, w'.txid)) && (RowBacked(chain, w) ==> RowBacked(chain, w'))
  }

  lemma ChainRow(cfg: Config, s: Sys, i: nat, b': Book, w': Withdrawal)
    requires ChainInv(cfg, s) && i < |s.ws| && RowKeepsChain(cfg.chain, s.ws, i, s.ws[i], w')
    ensures ChainInv(cfg, WithRow(s, i, b', w'))
  {
    hide RowBacked;
  }

  lemma ChainCommit(cfg: Config, s: Sys, i: nat, r: Outcome)
    requires ChainInv(cfg, s) && i < |s.ws|
    requires r.Success? ==> RowKeepsChain(cfg.chain, s.ws, i, s.ws[i], r.value.1)
    ensures ChainInv(cfg, CommitRow(s, i, r))
  {
    hide ChainInv, RowKeepsChain;
    if r.Success? {
      ChainRow(cfg, s, i, r.value.0, r.value.1);
    }
  }

  // -- the operations ---------------------------------------------------------------------------

  lemma ReleaseKeepsChain(chain: Tron.Chain, ws: seq<Withdrawal>, b: Book, i: nat, w: Withdrawal, w0: Withdrawal, actor: string, attestation: Option<string>)
    requires w == w0.(status := w.status) && (w.status == w0.status || w.status == Rejected)
    ensures var r := ReleaseHold(b, i, w, actor, attestation); r.Success? ==> RowKeepsChain(chain, ws, i, w0, r.value.1)
  {
    hide PostUnsubmitEntry, Post, UserAccounts, Blank, Strip, BackedBy, TxidFree;
  }

  lemma EventKeepsChain(chain: Tron.Chain, ws: seq<Withdrawal>, b: Book, i: nat, w: Withdrawal, report: Report, actual: Option<int>)
    requires w.backend != ManualTron
    ensures var r := ApplyPayoutState(b, ws, i, w, report, actual); r.Success? ==> RowKeepsChain(chain, ws, i, w, r.value.1)
  {
    hide PostSettleEntry, BackedBy, TxidFree;
    if ApplyPayoutState(b, ws, i, w, report, actual).Success? {
      EventStatus(b, ws, i, w, report, actual);
      SettleSetsOnlySettle(b, i, w, actual);
      SettleSetsOnlySettle(b, i, w.(txid := report.txid), actual);
    }
  }

  lemma BroadcastKeepsChain(chain: Tron.Chain, ws: seq<Withdrawal>, i: nat, w: Withdrawal, txid: string)
    ensures var r := MarkBroadcast(ws, i, w, chain, txid); r.Success? ==> RowKeepsChain(chain, ws, i, w, r.value)
  {
    hide TxidFree, Normalized, Tron.Backs;
  }

  lemma PollKeepsChain(chain: Tron.Chain, ws: seq<Withdrawal>, b: Book, i: nat, w: Withdrawal, height: int, required: int)
    ensures var r := PollManual(b, i, w, chain, height, required); r.Success? ==> RowKeepsChain(chain, ws, i, w, r.value.1)
  {
    hide PostSettleEntry, Tron.Verdict, TxidFree, BackedBy;
    SettleSetsOnlySettle(b, i, w, None);
    if PollManual(b, i, w, chain, height, required).Success? && RowBacked(chain, w) && w.status == Broadcast {
      SameClaimBacked(chain, w, PollManual(b, i, w, chain, height, required).value.1);
    }
  }

  lemma SameClaimBacked(chain: Tron.Chain, w: Withdrawal, w': Withdrawal)
    requires w'.txid == w.txid && w'.net == w.net && w'.destination == w.destination
    ensures BackedBy(chain, w) ==> BackedBy(chain, w')
  {
  }

  lemma ApproveKeepsChain(chain: Tron.Chain, ws: seq<Withdrawal>, b: Book, i: nat, w: Withdrawal, policy: FeePolicy, token: nat)
    ensures var r := ApprovedOutcome(b, i, w, policy, token); r.Success? ==> RowKeepsChain(chain, ws, i, w, r.value.1)
  {
    hide Post, QuoteFor, BackedBy, TxidFree;
  }

  lemma WithdrawalsKeepChain(cfg: Config, s: Sys, step: Step)
    requires ChainInv(cfg, s)
    ensures ChainInv(cfg, NextWithdrawal(cfg, s, step))
  {
    hide ChainInv, RowKeepsChain, PlaceHold, ApplyPayoutState, ReleaseHold, PollManual, MarkBroadcast, ApprovedOutcome;
    match step {
      case Hold(req, now, createdAt) => HoldKeepsChain(cfg, s, req, now, createdAt);
      case ApproveRow(i, policy, token) =>
        if i < |s.ws| {
          ApproveKeepsChain(cfg.chain, s.ws, s.book, i, s.ws[i], policy, token);
          ChainCommit(cfg, s, i, ApprovedOutcome(s.book, i, s.ws[i], policy, token));
        }
      case RejectRow(i, actor) =>
        if i < |s.ws| {
          ReleaseKeepsChain(cfg.chain, s.ws, s.book, i, s.ws[i].(status := Rejected), s.ws[i], actor, None);
          ChainCommit(cfg, s, i, Reject(s.book, i, s.ws[i], actor));
        }
      case AdminRelease(i, actor, attestation) =>
        if i < |s.ws| {
          ReleaseKeepsChain(cfg.chain, s.ws, s.book, i, s.ws[i], s.ws[i], actor, Some(attestation));
          ChainCommit(cfg, s, i, ReleaseHold(s.book, i, s.ws[i], actor, Some(attestation)));
        }
      case PayoutEvent(i, report, actual) =>
        if i < |s.ws| && s.ws[i].backend != ManualTron {
          EventKeepsChain(cfg.chain, s.ws, s.book, i, s.ws[i], report, actual);
          ChainCommit(cfg, s, i, ApplyPayoutState(s.book, s.ws, i, s.ws[i], report, actual));
        }
      case OperatorBroadcast(i, txid) =>
        if i < |s.ws| && MarkBroadcast(s.ws, i, s.ws[i], cfg.chain, txid).Success? {
          BroadcastKeepsChain(cfg.chain, s.ws, i, s.ws[i], txid);
          ChainRow(cfg, s, i, s.book, MarkBroadcast(s.ws, i, s.ws[i], cfg.chain, txid).value);
        }
      case OperatorPoll(i, height, required) =>
        if i < |s.ws| {
          PollKeepsChain(cfg.chain, s.ws, s.book, i, s.ws[i], height, required);
          ChainCommit(cfg, s, i, PollManual(s.book, i, s.ws[i], cfg.chain, height, required));
        }
      case _ =>
    }
  }

  lemma HoldKeepsChain(cfg: Config, s: Sys, req: Request, now: int, createdAt: int)
    requires ChainInv(cfg, s)
    ensures ChainInv(cfg, NextWithdrawal(cfg, s, Hold(req, now, createdAt)))
  {
    hide PlaceHold, BackedBy;
    if PlaceHold(s.book, s.ws, cfg.assets, req, now, createdAt).Success? {
      HoldHasNoSubmit(s.book, s.ws, cfg.assets, req, now, createdAt);
    }
  }

  lemma RecordKeepsChain(chain: Tron.Chain, ws: seq<Withdrawal>, b: Book, i: nat, w: Withdrawal, ref: Reference, q: FeeQuote)
    ensures var r := RecordSubmission(b, i, w, ref, q); r.Success? ==> RowKeepsChain(chain, ws, i, w, r.value.1)
  {
    hide Post, BackedBy, TxidFree;
  }

  lemma StatusKeepsChain(chain: Tron.Chain, ws: seq<Withdrawal>, i: nat, w: Withdrawal, w': Withdrawal)
    requires w' == w.(status := w'.status) && w'.status != Broadcast && w'.status != Confirmed
    ensures RowKeepsChain(chain, ws, i, w, w')
  {
    hide BackedBy, TxidFree;
  }

  lemma AbandonKeepsChain(cfg: Config, s: Sys, k: nat, reason: string)
    requires ChainInv(cfg, s) && Working(s, k)
    ensures ChainInv(cfg, NextWorker(cfg, s, Abandon(k, reason)))
  {
    hide ChainInv, RowKeepsChain, ReleaseHold;
    var i := s.workers[k].row;
    var r := ReleaseHold(s.book, i, s.ws[i], ACTOR_NEVER_SUBMITTED, Some(NeverSentProof(reason)));
    ReleaseKeepsChain(cfg.chain, s.ws, s.book, i, s.ws[i], s.ws[i], ACTOR_NEVER_SUBMITTED, Some(NeverSentProof(reason)));
    ChainCommit(cfg, s, i, r);
    if s.workers[k].phase.Claimed? {
      SameChain(cfg, CommitRow(s, i, r), NextWorker(cfg, s, Abandon(k, reason)));
    }
  }

  lemma RecordStepKeepsChain(cfg: Config, s: Sys, k: nat)
    requires ChainInv(cfg, s) && Working(s, k) && s.workers[k].phase.Answered?
    ensures ChainInv(cfg, NextWorker(cfg, s, Record(k)))
  {
    hide ChainInv, RowKeepsChain, RecordSubmission;
    var Worker(i, Answered(p, q)) := s.workers[k];
    RecordKeepsChain(cfg.chain, s.ws, s.book, i, s.ws[i], PayoutRef(p), q);
    ChainCommit(cfg, s, i, RecordSubmission(s.book, i, s.ws[i], PayoutRef(p), q));
    SameChain(cfg, CommitRow(s, i, RecordSubmission(s.book, i, s.ws[i], PayoutRef(p), q)), NextWorker(cfg, s, Record(k)));
  }

  lemma WorkersKeepChain(cfg: Config, s: Sys, step: Step)
    requires ChainInv(cfg, s)
    ensures ChainInv(cfg, NextWorker(cfg, s, step))
  {
    hide ChainInv, RowKeepsChain, ReleaseHold, RecordSubmission, QuoteFor, QuoteFromPayout, Unclaimed, AmountText;
    match step {
      case ClaimRow(i) =>
        if i < |s.ws| && Claim(s.ws[i]).Some? {
          StatusKeepsChain(cfg.chain, s.ws, i, s.ws[i], Claim(s.ws[i]).value);
          ChainRow(cfg, s, i, s.book, Claim(s.ws[i]).value);
          SameChain(cfg, WithRow(s, i, s.book, Claim(s.ws[i]).value), NextWorker(cfg, s, step));
        }
      case Abandon(k, reason) =>
        if Working(s, k) && s.workers[k].phase.Claimed? {
          AbandonKeepsChain(cfg, s, k, reason);
        }
      case Record(k) =>
        if Working(s, k) && s.workers[k].phase.Answered? {
          RecordStepKeepsChain(cfg, s, k);
        }
      case ResolveStuck(i) =>
        if i < |s.ws| && Stuck(s.ws[i]) {
          DecisionKeepsChain(cfg, s, i);
        }
      case _ => SameChain(cfg, s, NextWorker(cfg, s, step));
    }
  }

  lemma DecisionKeepsChain(cfg: Config, s: Sys, i: nat)
    requires ChainInv(cfg, s) && i < |s.ws|
    ensures ChainInv(cfg, ResolveDecision(cfg, s, i))
  {
    hide ChainInv, RowKeepsChain, RecordSubmission, QuoteFromPayout, Unclaimed;
    match FindMine(s.payouts, i) {
      case Some(p) =>
        var q := QuoteFromPayout(s.payouts[p].amount, s.ws[i].gross, Decimals(cfg, s.ws[i].asset));
        if q.Success? {
          RecordKeepsChain(cfg.chain, s.ws, s.book, i, s.ws[i], PayoutRef(p), q.value);
          ChainCommit(cfg, s, i, RecordSubmission(s.book, i, s.ws[i], PayoutRef(p), q.value));
        }
      case None =>
        StatusKeepsChain(cfg.chain, s.ws, i, s.ws[i], s.ws[i].(status := Approved));
        ChainRow(cfg, s, i, s.book, s.ws[i].(status := Approved));
    }
  }

  lemma SameChain(cfg: Config, s: Sys, s': Sys)
    requires ChainInv(cfg, s) && s'.ws == s.ws
    ensures ChainInv(cfg, s')
  {
  }

  lemma NextKeepsChain(cfg: Config, s: Sys, step: Step)
    requires ChainInv(cfg, s)
    ensures ChainInv(cfg, Next(cfg, s, step))
  {
    hide NextWithdrawal, NextWorker, NextDeposit, ChainInv;
    if IsDepositStep(step) {
      DepositsLeaveRows(s, step);
      SameChain(cfg, s, NextDeposit(s, step));
    } else if IsWorkerStep(step) {
      WorkersKeepChain(cfg, s, step);
    } else {
      WithdrawalsKeepChain(cfg, s, step);
    }
  }

  lemma {:induction false} HistoryKeepsChain(cfg: Config, states: seq<Sys>, steps: seq<Step>, n: nat)
    requires History(cfg, states, steps) && n <= |steps|
    ensures ChainInv(cfg, states[n])
  {
    hide Next, Admissible;
    if n > 0 {
      hide ChainInv, IsInitial;
      HistoryKeepsChain(cfg, states, steps, n - 1);
      assert StepAt(cfg, states, steps, n - 1);
      NextKeepsChain(cfg, states[n - 1], steps[n - 1]);
    }
  }

  lemma ReachableKeepsChain(cfg: Config, s: Sys)
    requires Reachable(cfg, s)
    ensures ChainInv(cfg, s)
  {
    hide ChainInv, IsInitial, StepAt;
    var states, steps :| History(cfg, states, steps) && states[|steps|] == s;
    HistoryKeepsChain(cfg, states, steps, |steps|);
  }

  // -- on-chain outflow ------------------------------------------------------------------------------

  function FromHotWallet(chain: Tron.Chain): Tron.Transfer -> int {
    (t: Tron.Transfer) => if t.contract == chain.contract && t.sender == chain.hotWallet then t.amount else 0
  }

  /** What one transaction took out of the hot wallet. */
  function OutflowOf(chain: Tron.Chain, txid: string): int {
    if txid in chain.transactions && Tron.ReceiptSucceeded(chain.transactions[txid])
    then Sum(chain.transactions[txid].transfers, FromHotWallet(chain)) else 0
  }

  ghost function TotalOutflow(chain: Tron.Chain, txids: set<string>): int {
    if txids == {} then 0
    else
      var t :| t in txids;
      OutflowOf(chain, t) + TotalOutflow(chain, txids - {t})
  }

  lemma OutflowNonNegative(chain: Tron.Chain, txid: string)
    ensures OutflowOf(chain, txid) >= 0
  {
    if txid in chain.transactions {
      SumNonNegative(chain.transactions[txid].transfers, FromHotWallet(chain));
    }
  }

  lemma {:induction false} OutflowWithout(chain: Tron.Chain, txids: set<string>, t: string)
    requires t in txids
    ensures TotalOutflow(chain, txids) == OutflowOf(chain, t) + TotalOutflow(chain, txids - {t})
    decreases |txids|
  {
    var u :| u in txids && TotalOutflow(chain, txids) == OutflowOf(chain, u) + TotalOutflow(chain, txids - {u});
    if u != t {
      OutflowWithout(chain, txids - {u}, t);
      OutflowWithout(chain, txids - {t}, u);
      assert txids - {u} - {t} == txids - {t} - {u};
    }
  }

  lemma {:induction false} OutflowGrows(chain: Tron.Chain, some: set<string>, more: set<string>)
    requires some <= more
    ensures TotalOutflow(chain, some) <= TotalOutflow(chain, more)
    decreases |more|
  {
    if more != {} {
      var t :| t in more;
      OutflowWithout(chain, more, t);
      OutflowNonNegative(chain, t);
      if t in some {
        OutflowWithout(chain, some, t);
        OutflowGrows(chain, some - {t}, more - {t});
      } else {
        OutflowGrows(chain, some, more - {t});
      }
    }
  }

  function SentNet(): Withdrawal -> int {
    (w: Withdrawal) => if Sent(w) && w.net.Some? then w.net.value else 0
  }

  /** The transactions that back the sent rows. */
  function Claimed(ws: seq<Withdrawal>): set<string> {
    set i | 0 <= i < |ws| && Sent(ws[i]) && ws[i].txid.Some? :: ws[i].txid.value
  }

  lemma BackingCovers(chain: Tron.Chain, w: Withdrawal)
    requires Sent(w) && RowBacked(chain, w)
    ensures w.txid.Some? && w.txid.value in chain.transactions && SentNet()(w) <= OutflowOf(chain, w.txid.value)
  {
    var index: nat :| Tron.Backs(chain, w.txid.value, index, w.destination, w.net.value);
    SumCovers(chain.transactions[w.txid.value].transfers, FromHotWallet(chain), index);
  }

  lemma {:induction false} ClaimsAreCovered(chain: Tron.Chain, ws: seq<Withdrawal>)
    requires TxidsDistinct(ws) && forall i :: 0 <= i < |ws| ==> RowBacked(chain, ws[i])
    ensures Sum(ws, SentNet()) <= TotalOutflow(chain, Claimed(ws))
    ensures Claimed(ws) <= chain.transactions.Keys
  {
    hide RowBacked;
    if ws != [] {
      var n := |ws| - 1;
      ClaimsAreCovered(chain, ws[..n]);
      forall t | t in Claimed(ws[..n]) ensures t in Claimed(ws) {
        var i :| 0 <= i < n && Sent(ws[..n][i]) && ws[..n][i].txid == Some(t);
        assert ws[i].txid == Some(t);
      }
      if Sent(ws[n]) {
        BackingCovers(chain, ws[n]);
        var t := ws[n].txid.value;
        assert t !in Claimed(ws[..n]);
        assert Claimed(ws) == Claimed(ws[..n]) + {t};
        assert Claimed(ws) - {t} == Claimed(ws[..n]);
        OutflowWithout(chain, Claimed(ws), t);
      } else {
        assert Claimed(ws) == Claimed(ws[..n]);
      }
    }
  }

  /** On a fixed chain, every operator-sent withdrawal that is broadcast or confirmed has its
      own successful transaction holding a hot-wallet transfer of exactly its net amount to its
      destination, so together they never exceed what left the wallet on chain. */
  lemma ManualSendsAreBacked(cfg: Config, s: Sys)
    requires Reachable(cfg, s)
    ensures forall i :: 0 <= i < |s.ws| && Sent(s.ws[i]) ==> BackedBy(cfg.chain, s.ws[i])
    ensures forall i, j :: 0 <= i < j < |s.ws| && Sent(s.ws[i]) && Sent(s.ws[j]) ==> s.ws[i].txid != s.ws[j].txid
    ensures Sum(s.ws, SentNet()) <= TotalOutflow(cfg.chain, cfg.chain.transactions.Keys)
  {
    hide Reachable, BackedBy;
    ReachableKeepsChain(cfg, s);
    ClaimsAreCovered(cfg.chain, s.ws);
    OutflowGrows(cfg.chain, Claimed(s.ws), cfg.chain.transactions.Keys);
    forall i, j | 0 <= i < j < |s.ws| && Sent(s.ws[i]) && Sent(s.ws[j]) ensures s.ws[i].txid != s.ws[j].txid {
      assert RowBacked(cfg.chain, s.ws[i]);
      HasTxid(cfg.chain, s.ws[i]);
    }
    forall i | 0 <= i < |s.ws| && Sent(s.ws[i]) ensures BackedBy(cfg.chain, s.ws[i]) {
      assert RowBacked(cfg.chain, s.ws[i]);
    }
  }

  lemma HasTxid(chain: Tron.Chain, w: Withdrawal)
    requires RowBacked(chain, w) && Sent(w)
    ensures w.txid.Some?
  {
  }

  /** Nothing but a poll confirms a manual row. */
  predicate NotConfirmed(s: Sys, i: nat) {
    i < |s.ws| && s.ws[i].backend == ManualTron && s.ws[i].status != Confirmed
  }

  lemma CommitNotConfirmed(s: Sys, j: nat, r: Outcome, i: nat)
    requires NotConfirmed(s, i) && j < |s.ws|
    requires r.Success? ==> r.value.1.backend == s.ws[j].backend && (r.value.1.status == Confirmed ==> j != i)
    ensures NotConfirmed(CommitRow(s, j, r), i)
  {
  }

  lemma ReleaseStatus(b: Book, i: nat, w: Withdrawal, actor: string, attestation: Option<string>)
    ensures var r := ReleaseHold(b, i, w, actor, attestation);
      r.Success? ==> r.value.1.backend == w.backend && (r.value.1.status == w.status || r.value.1.status == Refunded)
  {
    hide PostUnsubmitEntry, Post, UserAccounts, Blank, Strip;
  }

  lemma WithdrawalsDoNotConfirm(cfg: Config, s: Sys, step: Step, i: nat)
    requires NotConfirmed(s, i) && !(step.OperatorPoll? && step.i == i)
    ensures NotConfirmed(NextWithdrawal(cfg, s, step), i)
  {
    hide PlaceHold, PostSubmitEntry, PostSettleEntry, ApplyPayoutState, ReleaseHold, PollManual, TxidFree, Tron.Verdict, QuoteFor, Normalized;
    match step {
      case RejectRow(j, actor) =>
        if j < |s.ws| {
          ReleaseStatus(s.book, j, s.ws[j].(status := Rejected), actor, None);
        }
      case AdminRelease(j, actor, attestation) =>
        if j < |s.ws| {
          ReleaseStatus(s.book, j, s.ws[j], actor, Some(attestation));
        }
      case ApproveRow(j, policy, token) =>
        if j < |s.ws| {
          ApproveStatus(s.book, j, s.ws[j], policy, token);
          CommitNotConfirmed(s, j, ApprovedOutcome(s.book, j, s.ws[j], policy, token), i);
        }
      case _ =>
    }
  }

  lemma ApproveStatus(b: Book, i: nat, w: Withdrawal, policy: FeePolicy, token: nat)
    ensures var r := ApprovedOutcome(b, i, w, policy, token);
      r.Success? ==> r.value.1.backend == w.backend && r.value.1.status != Confirmed
  {
    hide Post, QuoteFor;
  }

  lemma RecordStatus(b: Book, i: nat, w: Withdrawal, ref: Reference, q: FeeQuote)
    ensures var r := RecordSubmission(b, i, w, ref, q); r.Success? ==> r.value.1.backend == w.backend && r.value.1.status == Submitted
  {
    hide Post;
  }

  lemma StatusNotConfirmed(s: Sys, j: nat, w: Withdrawal, i: nat)
    requires NotConfirmed(s, i) && j < |s.ws| && w.backend == s.ws[j].backend && w.status != Confirmed
    ensures NotConfirmed(WithRow(s, j, s.book, w), i)
  {
  }

  lemma DecisionDoesNotConfirm(cfg: Config, s: Sys, j: nat, i: nat)
    requires NotConfirmed(s, i) && j < |s.ws|
    ensures NotConfirmed(ResolveDecision(cfg, s, j), i)
  {
    hide RecordSubmission, QuoteFromPayout, Unclaimed, NotConfirmed;
    StatusNotConfirmed(s, j, s.ws[j].(status := Approved), i);
    if FindMine(s.payouts, j).Some? {
      var p := FindMine(s.payouts, j).value;
      var q := QuoteFromPayout(s.payouts[p].amount, s.ws[j].gross, Decimals(cfg, s.ws[j].asset));
      if q.Success? {
        RecordStatus(s.book, j, s.ws[j], PayoutRef(p), q.value);
        CommitNotConfirmed(s, j, RecordSubmission(s.book, j, s.ws[j], PayoutRef(p), q.value), i);
      }
    }
  }

  lemma SameRowsNotConfirmed(s: Sys, s': Sys, i: nat)
    requires NotConfirmed(s, i) && s'.ws == s.ws
    ensures NotConfirmed(s', i)
  {
  }

  lemma WorkersDoNotConfirm(cfg: Config, s: Sys, step: Step, i: nat)
    requires NotConfirmed(s, i)
    ensures NotConfirmed(NextWorker(cfg, s, step), i)
  {
    hide ReleaseHold, RecordSubmission, QuoteFor, ResolveDecision, AmountText, NotConfirmed;
    match step {
      case ClaimRow(j) =>
        if j < |s.ws| && Claim(s.ws[j]).Some? {
          StatusNotConfirmed(s, j, Claim(s.ws[j]).value, i);
          SameRowsNotConfirmed(WithRow(s, j, s.book, Claim(s.ws[j]).value), NextWorker(cfg, s, step), i);
        }
      case Abandon(k, reason) =>
        if Working(s, k) && s.workers[k].phase.Claimed? {
          AbandonDoesNotConfirm(cfg, s, k, reason, i);
        }
      case Record(k) =>
        if Working(s, k) && s.workers[k].phase.Answered? {
          var Worker(j, Answered(p, q)) := s.workers[k];
          var r := RecordSubmission(s.book, j, s.ws[j], PayoutRef(p), q);
          RecordStatus(s.book, j, s.ws[j], PayoutRef(p), q);
          CommitNotConfirmed(s, j, r, i);
          SameRowsNotConfirmed(CommitRow(s, j, r), NextWorker(cfg, s, step), i);
        }
      case ResolveStuck(j) =>
        if j < |s.ws| {
          DecisionDoesNotConfirm(cfg, s, j, i);
        }
      case _ => SameRowsNotConfirmed(s, NextWorker(cfg, s, step), i);
    }
  }

  lemma AbandonDoesNotConfirm(cfg: Config, s: Sys, k: nat, reason: string, i: nat)
    requires NotConfirmed(s, i) && Working(s, k) && s.workers[k].phase.Claimed?
    ensures NotConfirmed(NextWorker(cfg, s, Abandon(k, reason)), i)
  {
    hide ReleaseHold;
    ReleaseStatus(s.book, s.workers[k].row, s.ws[s.workers[k].row], ACTOR_NEVER_SUBMITTED, Some(NeverSentProof(reason)));
  }

  /** A manual withdrawal is only ever confirmed by a poll whose chain height gives its own
      transaction the required depth. */
  lemma ConfirmationHadDepth(cfg: Config, s: Sys, step: Step, i: nat)
    requires NotConfirmed(s, i) && !NotConfirmed(Next(cfg, s, step), i)
    ensures step.OperatorPoll? && step.i == i && s.ws[i].status == Broadcast && s.ws[i].txid.Some?
      && s.ws[i].txid.value in cfg.chain.transactions
      && Tron.Confirmations(step.height, cfg.chain.transactions[s.ws[i].txid.value].block) >= step.required
  {
    hide NextWorker, NextDeposit, NextWithdrawal, PollManual;
    if IsDepositStep(step) {
      DepositsLeaveRows(s, step);
    } else if IsWorkerStep(step) {
      WorkersDoNotConfirm(cfg, s, step, i);
    } else if !(step.OperatorPoll? && step.i == i) {
      WithdrawalsDoNotConfirm(cfg, s, step, i);
    } else {
      ConfirmingPoll(cfg, s, i, step.height, step.required);
    }
  }

  lemma ConfirmingPoll(cfg: Config, s: Sys, i: nat, height: int, required: int)
    requires NotConfirmed(s, i) && !NotConfirmed(NextWithdrawal(cfg, s, OperatorPoll(i, height, required)), i)
    ensures s.ws[i].status == Broadcast && s.ws[i].txid.Some? && s.ws[i].txid.value in cfg.chain.transactions
      && Tron.Confirmations(height, cfg.chain.transactions[s.ws[i].txid.value].block) >= required
  {
    hide PollManual, Tron.Confirmations;
    if PollManual(s.book, i, s.ws[i], cfg.chain, height, required).Success? {
      PollStatus(s.book, i, s.ws[i], cfg.chain, height, required);
      PollStaysManual(s.book, i, s.ws[i], cfg.chain, height, required);
    }
  }

  lemma PollStaysManual(b: Book, i: nat, w: Withdrawal, chain: Tron.Chain, height: int, required: int)
    requires PollManual(b, i, w, chain, height, required).Success?
    ensures PollManual(b, i, w, chain, height, required).value.1.backend == w.backend
  {
    hide PostSettleEntry, Tron.Verdict;
    SettleSetsOnlySettle(b, i, w, None);
  }
}
