/** Payout references: every row that names a payout names one that carries its own id, so the
    unique index on the reference never refuses a submission. */
module References {
  import opened Texts
  import opened Wrappers
  import opened Ledger
  import opened Fees
  import opened Withdrawals
  import opened MoneyPath
  import opened MoneyInvariants
  import opened MoneyFlow
  import opened MoneyRuns
  import opened Submission
  import Tron

  /** The payout a row names exists and echoes the row. */
  predicate RefersToOwn(payouts: seq<Payout>, i: nat, w: Withdrawal) {
    w.backendRef.Some? && w.backendRef.value.PayoutRef? ==>
      w.backendRef.value.payout < |payouts| && payouts[w.backendRef.value.payout].echo == Some(i)
  }

  predicate RefInv(s: Sys) {
    forall i :: 0 <= i < |s.ws| ==> RefersToOwn(s.payouts, i, s.ws[i])
  }

  /** Payouts keep their place and the id they carry. */
  predicate SameEchoes(payouts: seq<Payout>, payouts': seq<Payout>) {
    |payouts| <= |payouts'| && forall p :: 0 <= p < |payouts| ==> payouts'[p].echo == payouts[p].echo
  }

  lemma RefStays(s: Sys, s': Sys)
    requires RefInv(s) && SameEchoes(s.payouts, s'.payouts) && |s'.ws| == |s.ws|
    requires forall i :: 0 <= i < |s.ws| ==> s'.ws[i].backendRef == s.ws[i].backendRef
    ensures RefInv(s')
  {
    forall i | 0 <= i < |s'.ws| ensures RefersToOwn(s'.payouts, i, s'.ws[i]) {
      assert RefersToOwn(s.payouts, i, s.ws[i]);
    }
  }

  /** An outcome that leaves the reference alone, or gives the row a token of its own. */
  predicate KeepsRef(w: Withdrawal, r: Outcome) {
    r.Success? ==> r.value.1.backendRef == w.backendRef || (r.value.1.backendRef.Some? && r.value.1.backendRef.value.ManualRef?)
  }

  lemma RefCommit(s: Sys, i: nat, r: Outcome)
    requires RefInv(s) && i < |s.ws| && KeepsRef(s.ws[i], r)
    ensures RefInv(CommitRow(s, i, r))
  {
    assert RefersToOwn(s.payouts, i, s.ws[i]);
  }

  lemma ReleaseKeepsRef(b: Book, i: nat, w: Withdrawal, actor: string, attestation: Option<string>)
    ensures KeepsRef(w, ReleaseHold(b, i, w, actor, attestation))
  {
    hide PostUnsubmitEntry, Post, UserAccounts, Blank, MarkRefunded;
    if AutoReleasable(w.status) || AttestedReleasable(w.status) {
      if PostUnsubmitEntry(b, i, w).Success? && PostReleaseEntry(PostUnsubmitEntry(b, i, w).value, i, w).Success? {
        ReleasableIsRefundable(PostReleaseEntry(PostUnsubmitEntry(b, i, w).value, i, w).value.1, actor, attestation);
      }
    }
  }

  lemma EventKeepsRef(b: Book, ws: seq<Withdrawal>, i: nat, w: Withdrawal, report: Report, actual: Option<int>)
    ensures KeepsRef(w, ApplyPayoutState(b, ws, i, w, report, actual))
  {
    hide MoveTo, TxidFree;
    var w1 := if report.txid.Some? && w.txid.None? then w.(txid := report.txid) else w;
    if PayoutTarget(report.state).Some? {
      MoveStatusOnly(b, i, w1, PayoutTarget(report.state).value, actual);
    }
  }

  lemma PollKeepsRef(b: Book, i: nat, w: Withdrawal, chain: Tron.Chain, height: int, required: int)
    ensures KeepsRef(w, PollManual(b, i, w, chain, height, required))
  {
    hide PostSettleEntry, Tron.Verdict;
    SettleSetsOnlySettle(b, i, w, None);
  }

  lemma ApproveKeepsRef(b: Book, i: nat, w: Withdrawal, policy: FeePolicy, token: nat)
    ensures KeepsRef(w, ApprovedOutcome(b, i, w, policy, token))
  {
    hide Post, QuoteFor;
  }

  lemma WithdrawalsKeepRefs(cfg: Config, s: Sys, step: Step)
    requires RefInv(s)
    ensures RefInv(NextWithdrawal(cfg, s, step))
  {
    hide RefInv, KeepsRef, PlaceHold, ApplyPayoutState, ReleaseHold, PollManual, ApprovedOutcome, Tron.Verdict, TxidFree, Normalized;
    match step {
      case Hold(req, now, createdAt) => HoldKeepsRefs(cfg, s, req, now, createdAt);
      case ApproveRow(i, policy, token) =>
        if i < |s.ws| {
          ApproveKeepsRef(s.book, i, s.ws[i], policy, token);
          RefCommit(s, i, ApprovedOutcome(s.book, i, s.ws[i], policy, token));
        }
      case RejectRow(i, actor) =>
        if i < |s.ws| {
          RejectKeepsRefs(s, i, actor);
        }
      case AdminRelease(i, actor, attestation) =>
        if i < |s.ws| {
          ReleaseKeepsRef(s.book, i, s.ws[i], actor, Some(attestation));
          RefCommit(s, i, ReleaseHold(s.book, i, s.ws[i], actor, Some(attestation)));
        }
      case PayoutEvent(i, report, actual) =>
        if i < |s.ws| {
          EventKeepsRef(s.book, s.ws, i, s.ws[i], report, actual);
          RefCommit(s, i, ApplyPayoutState(s.book, s.ws, i, s.ws[i], report, actual));
        }
      case OperatorBroadcast(i, txid) =>
        if i < |s.ws| && MarkBroadcast(s.ws, i, s.ws[i], cfg.chain, txid).Success? {
          RefStays(s, WithRow(s, i, s.book, MarkBroadcast(s.ws, i, s.ws[i], cfg.chain, txid).value));
        }
      case OperatorPoll(i, height, required) =>
        if i < |s.ws| {
          PollKeepsRef(s.book, i, s.ws[i], cfg.chain, height, required);
          RefCommit(s, i, PollManual(s.book, i, s.ws[i], cfg.chain, height, required));
        }
      case _ =>
    }
  }

  lemma RejectKeepsRefs(s: Sys, i: nat, actor: string)
    requires RefInv(s) && i < |s.ws|
    ensures RefInv(CommitRow(s, i, Reject(s.book, i, s.ws[i], actor)))
  {
    hide RefInv, ReleaseHold;
    ReleaseKeepsRef(s.book, i, s.ws[i].(status := Rejected), actor, None);
    RefCommit(s, i, Reject(s.book, i, s.ws[i], actor));
  }

  lemma HoldKeepsRefs(cfg: Config, s: Sys, req: Request, now: int, createdAt: int)
    requires RefInv(s)
    ensures RefInv(NextWithdrawal(cfg, s, Hold(req, now, createdAt)))
  {
    hide PlaceHold;
    if PlaceHold(s.book, s.ws, cfg.assets, req, now, createdAt).Success? {
      HoldHasNoSubmit(s.book, s.ws, cfg.assets, req, now, createdAt);
      var w := PlaceHold(s.book, s.ws, cfg.assets, req, now, createdAt).value.1;
      forall i | 0 <= i < |s.ws| + 1 ensures RefersToOwn(s.payouts, i, (s.ws + [w])[i]) {
        assert i < |s.ws| ==> RefersToOwn(s.payouts, i, s.ws[i]);
      }
    }
  }

  lemma RecordSetsRef(b: Book, i: nat, w: Withdrawal, ref: Reference, q: FeeQuote)
    ensures var r := RecordSubmission(b, i, w, ref, q); r.Success? ==> r.value.1.backendRef == Some(ref)
  {
    hide Post;
  }

  lemma RecordKeepsRefs(s: Sys, i: nat, p: nat, q: FeeQuote)
    requires RefInv(s) && i < |s.ws| && p < |s.payouts| && s.payouts[p].echo == Some(i)
    ensures RefInv(CommitRow(s, i, RecordSubmission(s.book, i, s.ws[i], PayoutRef(p), q)))
  {
    hide RecordSubmission;
    RecordSetsRef(s.book, i, s.ws[i], PayoutRef(p), q);
  }

  lemma WorkersKeepRefs(cfg: Config, s: Sys, step: Step)
    requires RefInv(s) && FlowInv(cfg, s)
    ensures RefInv(NextWorker(cfg, s, step))
  {
    hide RefInv, FlowInv, ReleaseHold, RecordSubmission, QuoteFor, ResolveDecision, AmountText;
    match step {
      case Abandon(k, reason) =>
        if Working(s, k) && s.workers[k].phase.Claimed? {
          AbandonKeepsRefs(cfg, s, k, reason);
        }
      case Record(k) =>
        if Working(s, k) && s.workers[k].phase.Answered? {
          AnswerKeepsRefs(cfg, s, k);
        }
      case ResolveStuck(i) =>
        if i < |s.ws| && Stuck(s.ws[i]) {
          DecisionKeepsRefs(cfg, s, i);
        }
      case _ => RefStays(s, NextWorker(cfg, s, step));
    }
  }

  lemma AbandonKeepsRefs(cfg: Config, s: Sys, k: nat, reason: string)
    requires RefInv(s) && Working(s, k) && s.workers[k].phase.Claimed?
    ensures RefInv(NextWorker(cfg, s, Abandon(k, reason)))
  {
    hide RefInv, ReleaseHold;
    var i := s.workers[k].row;
    var r := ReleaseHold(s.book, i, s.ws[i], ACTOR_NEVER_SUBMITTED, Some(NeverSentProof(reason)));
    ReleaseKeepsRef(s.book, i, s.ws[i], ACTOR_NEVER_SUBMITTED, Some(NeverSentProof(reason)));
    RefCommit(s, i, r);
    RefStays(CommitRow(s, i, r), NextWorker(cfg, s, Abandon(k, reason)));
  }

  lemma AnswerKeepsRefs(cfg: Config, s: Sys, k: nat)
    requires RefInv(s) && FlowInv(cfg, s) && Working(s, k) && s.workers[k].phase.Answered?
    ensures RefInv(NextWorker(cfg, s, Record(k)))
  {
    hide RefInv, FlowInv, RecordSubmission, QuoteFor;
    var Worker(i, Answered(p, q)) := s.workers[k];
    AnswerEchoes(cfg, s, k);
    RecordKeepsRefs(s, i, p, q);
    RefStays(CommitRow(s, i, RecordSubmission(s.book, i, s.ws[i], PayoutRef(p), q)), NextWorker(cfg, s, Record(k)));
  }

  lemma AnswerEchoes(cfg: Config, s: Sys, k: nat)
    requires FlowInv(cfg, s) && Working(s, k) && s.workers[k].phase.Answered?
    ensures s.workers[k].phase.payout < |s.payouts| && s.payouts[s.workers[k].phase.payout].echo == Some(s.workers[k].row)
  {
    assert AnswerOk(s, s.workers[k]);
  }

  lemma DecisionKeepsRefs(cfg: Config, s: Sys, i: nat)
    requires RefInv(s) && i < |s.ws|
    ensures RefInv(ResolveDecision(cfg, s, i))
  {
    hide RefInv, RecordSubmission, QuoteFromPayout, Unclaimed;
    match FindMine(s.payouts, i) {
      case Some(p) =>
        var q := QuoteFromPayout(s.payouts[p].amount, s.ws[i].gross, Decimals(cfg, s.ws[i].asset));
        if q.Success? {
          RecordKeepsRefs(s, i, p, q.value);
        }
      case None => RefStays(s, WithRow(s, i, s.book, s.ws[i].(status := Approved)));
    }
  }

  lemma NextKeepsRefs(cfg: Config, s: Sys, step: Step)
    requires RefInv(s) && FlowInv(cfg, s)
    ensures RefInv(Next(cfg, s, step))
  {
    hide NextWithdrawal, NextWorker, NextDeposit, FlowInv, RefInv;
    if IsDepositStep(step) {
      DepositsLeaveRows(s, step);
      RefStays(s, NextDeposit(s, step));
    } else if IsWorkerStep(step) {
      WorkersKeepRefs(cfg, s, step);
    } else {
      WithdrawalsKeepRefs(cfg, s, step);
    }
  }

  lemma {:induction false} HistoryKeepsRefs(cfg: Config, states: seq<Sys>, steps: seq<Step>, n: nat)
    requires History(cfg, states, steps) && n <= |steps|
    ensures RefInv(states[n])
  {
    hide Next, Admissible, LedgerInv, FlowInv;
    if n > 0 {
      hide RefInv, IsInitial;
      HistoryKeepsRefs(cfg, states, steps, n - 1);
      HistoryKept(cfg, states, steps, n - 1, _ => true);
      assert StepAt(cfg, states, steps, n - 1);
      NextKeepsRefs(cfg, states[n - 1], steps[n - 1]);
    }
  }

  /** No two withdrawals ever name one payout, so a payout id finds at most one row, and whoever
      it finds is the row whose id the payout carries. */
  lemma PayoutsFindOneRow(cfg: Config, s: Sys, i: nat, j: nat)
    requires Reachable(cfg, s) && i < |s.ws| && j < |s.ws|
    requires s.ws[i].backendRef.Some? && s.ws[i].backendRef.value.PayoutRef? && s.ws[j].backendRef == s.ws[i].backendRef
    ensures i == j
    ensures s.ws[i].backendRef.value.payout < |s.payouts| && s.payouts[s.ws[i].backendRef.value.payout].echo == Some(i)
  {
    hide IsInitial, StepAt;
    var states, steps :| History(cfg, states, steps) && states[|steps|] == s;
    HistoryKeepsRefs(cfg, states, steps, |steps|);
    assert RefersToOwn(s.payouts, i, s.ws[i]) && RefersToOwn(s.payouts, j, s.ws[j]);
  }
}
