/** Payouts whose answer was lost: exactly when the crash sweep can still adopt them, and that a
    row which a payout event moved on first is never recorded or settled afterwards. */
module Orphans {
  import opened Wrappers
  import Texts
  import opened Ledger
  import opened Fees
  import opened Withdrawals
  import opened WithdrawalBooks
  import opened MoneyPath
  import opened MoneyInvariants
  import opened MoneyFlow
  import opened MoneyRuns
  import opened Scenarios
  import Adoption
  import Submission
  import Amounts
  import Tron

  /** A live payout carries the id of a row that payout workers send, but the row has no submit
      entry and no worker is about to record one. */
  predicate Unrecorded(s: Sys, i: nat) {
    i < |s.ws| && s.ws[i].backend != ManualTron && FindMine(s.payouts, i).Some? && s.ws[i].submit.None? && !Attempted(s, i)
  }

  function Decision(cfg: Config, s: Sys, i: nat): Outcome
    requires Unrecorded(s, i)
  {
    var p := FindMine(s.payouts, i).value;
    match QuoteFromPayout(s.payouts[p].amount, s.ws[i].gross, Decimals(cfg, s.ws[i].asset))
    case Success(q) => RecordSubmission(s.book, i, s.ws[i], PayoutRef(p), q)
    case Failure(err) => Failure(err)
  }

  /** The sweep adopts the payout exactly while the row is still `submitting`, its amount can be
      read and the ledger takes the entry. */
  lemma AdoptableExactlyWhileSubmitting(cfg: Config, s: Sys, i: nat)
    requires Reachable(cfg, s) && Unrecorded(s, i)
    ensures Next(cfg, s, ResolveStuck(i)).ws[i].submit.Some? <==> s.ws[i].status == Submitting && Decision(cfg, s, i).Success?
  {
    hide Reachable, FlowInv, Books, Consistent, QuoteFromPayout, RecordSubmission, NextDeposit, NextWithdrawal;
    ReachableKept(cfg, s, _ => true);
    RowHasNoReference(s, i);
    if Decision(cfg, s, i).Success? {
      RecordedHasEntry(s.book, i, s.ws[i], PayoutRef(FindMine(s.payouts, i).value), FindMine(s.payouts, i).value, cfg, s);
    }
  }

  lemma RowHasNoReference(s: Sys, i: nat)
    requires LedgerInv(s) && i < |s.ws| && s.ws[i].submit.None?
    ensures s.ws[i].backendRef.None?
  {
    hide Consistent, PostedTo, EntriesOk;
    assert RowInv(s.book, s.ws[i]);
  }

  lemma RecordedHasEntry(b: Book, i: nat, w: Withdrawal, ref: Reference, p: nat, cfg: Config, s: Sys)
    requires Unrecorded(s, i) && b == s.book && w == s.ws[i] && p == FindMine(s.payouts, i).value && Decision(cfg, s, i).Success?
    ensures Decision(cfg, s, i).value.1.submit.Some?
  {
    hide QuoteFromPayout, PostFor;
  }

  // -- the way a row is lost to the sweep ------------------------------------------------------------

  /** Moved on without ever having been recorded. */
  predicate Orphan(s: Sys, i: nat) {
    && i < |s.ws| && s.ws[i].submit.None? && s.ws[i].settle.None? && s.ws[i].backend != ManualTron && !Attempted(s, i)
    && s.ws[i].status in {Submitted, Broadcast, Failed, Refunded}
  }

  lemma OrphanStays(cfg: Config, s: Sys, step: Step, i: nat)
    requires Orphan(s, i)
    ensures Orphan(Next(cfg, s, step), i)
  {
    hide NextWithdrawal, NextWorker, NextDeposit, Attempted;
    if IsDepositStep(step) {
      Submission.DepositsLeaveRows(s, step);
      SameWorkers(s, NextDeposit(s, step), i);
    } else if IsWorkerStep(step) {
      OrphanedByWorkers(cfg, s, step, i);
    } else {
      OrphanedByWithdrawals(cfg, s, step, i);
    }
  }

  lemma SameWorkers(s: Sys, s': Sys, i: nat)
    requires s'.workers == s.workers
    ensures Attempted(s', i) == Attempted(s, i)
  {
  }

  /** What an operation on the row itself must leave as it is. */
  predicate StaysOrphaned(w: Withdrawal, w': Withdrawal) {
    w'.submit == w.submit && w'.settle == w.settle && w'.backend == w.backend && w'.status in {Submitted, Broadcast, Failed, Refunded}
  }

  lemma RowStaysOrphaned(s: Sys, j: nat, r: Outcome, i: nat)
    requires Orphan(s, i) && j < |s.ws| && (j == i && r.Success? ==> StaysOrphaned(s.ws[i], r.value.1))
    ensures Orphan(CommitRow(s, j, r), i)
  {
    hide Attempted;
    SameWorkers(s, CommitRow(s, j, r), i);
  }

  lemma ReleaseStaysOrphaned(b: Book, i: nat, w: Withdrawal, actor: string, attestation: Option<string>)
    requires w.status in {Submitted, Broadcast, Failed, Refunded} && ReleaseHold(b, i, w, actor, attestation).Success?
    ensures StaysOrphaned(w, ReleaseHold(b, i, w, actor, attestation).value.1)
  {
    hide Post, UserAccounts, PostUnsubmitEntry, Texts.Strip, Texts.Blank;
  }

  lemma EventStaysOrphaned(b: Book, ws: seq<Withdrawal>, i: nat, w: Withdrawal, report: Report, actual: Option<int>)
    requires w.status in {Submitted, Broadcast, Failed, Refunded} && w.submit.None? && w.settle.None?
    requires ApplyPayoutState(b, ws, i, w, report, actual).Success?
    ensures StaysOrphaned(w, ApplyPayoutState(b, ws, i, w, report, actual).value.1)
  {
    hide Post, UserAccounts, SettlePostings, Committed, TxidFree;
  }

  lemma OrphanedByWithdrawals(cfg: Config, s: Sys, step: Step, i: nat)
    requires Orphan(s, i)
    ensures Orphan(NextWithdrawal(cfg, s, step), i)
  {
    hide PlaceHold, ReleaseHold, ApplyPayoutState, PollManual, MarkBroadcast, SubmitManual, QuoteFor, Attempted, Correlated;
    match step {
      case AdminRelease(j, actor, attestation) =>
        if j < |s.ws| {
          var r := ReleaseHold(s.book, j, s.ws[j], actor, Some(attestation));
          if j == i && r.Success? {
            ReleaseStaysOrphaned(s.book, i, s.ws[i], actor, Some(attestation));
          }
          RowStaysOrphaned(s, j, r, i);
        }
      case PayoutEvent(j, report, actual) =>
        if j < |s.ws| && Correlated(s.ws[j], j, report) {
          var r := ApplyPayoutState(s.book, s.ws, j, s.ws[j], report, actual);
          if j == i && r.Success? {
            EventStaysOrphaned(s.book, s.ws, i, s.ws[i], report, actual);
          }
          RowStaysOrphaned(s, j, r, i);
        }
      case OperatorBroadcast(j, txid) =>
        if j < |s.ws| && j == i {
          ManualOnly(s.ws, i, s.ws[i], cfg.chain, txid);
        }
        SameWorkers(s, NextWithdrawal(cfg, s, step), i);
      case RejectRow(j, actor) =>
        if j < |s.ws| {
          RowStaysOrphaned(s, j, Reject(s.book, j, s.ws[j], actor), i);
        }
      case ApproveRow(j, policy, token) =>
        if j < |s.ws| {
          RowStaysOrphaned(s, j, ApprovedOutcome(s.book, j, s.ws[j], policy, token), i);
        }
      case _ => SameWorkers(s, NextWithdrawal(cfg, s, step), i);
    }
  }

  lemma ManualOnly(ws: seq<Withdrawal>, i: nat, w: Withdrawal, chain: Tron.Chain, txid: string)
    requires w.backend != ManualTron
    ensures MarkBroadcast(ws, i, w, chain, txid).Failure?
  {
    hide Normalized;
  }

  lemma OrphanedByWorkers(cfg: Config, s: Sys, step: Step, i: nat)
    requires Orphan(s, i)
    ensures Orphan(NextWorker(cfg, s, step), i)
  {
    hide ReleaseHold, RecordSubmission, QuoteFor, ResolveDecision, AmountText;
    if step.ResolveStuck? && step.i < |s.ws| && step.i != i {
      DecisionLeavesOthers(cfg, s, step.i);
    }
  }

  /** An orphan stays one in every later state: it is never recorded, and never settled however
      often its payout is reported complete. */
  lemma {:induction false} OrphansAreNeverSettled(cfg: Config, states: seq<Sys>, steps: seq<Step>, m: nat, n: nat, i: nat)
    requires History(cfg, states, steps) && m <= n <= |steps| && Orphan(states[m], i)
    ensures Orphan(states[n], i)
  {
    hide IsInitial, Next, Admissible, Orphan;
    if m < n {
      OrphansAreNeverSettled(cfg, states, steps, m, n - 1, i);
      assert StepAt(cfg, states, steps, n - 1);
      OrphanStays(cfg, states[n - 1], steps[n - 1], i);
    }
  }

  // -- the run -----------------------------------------------------------------------------------------

  const PENDING := Report(0, Pending, Some(0), None)

  /** The payout was created and the worker died before the answer. */
  function Silent(cap: nat, units: nat, policy: FeePolicy): Sys {
    Next(OneADay(cap), Claiming(cap, units), Create(0, policy, true, false))
  }

  /** Then the rail's own event about the new payout arrived before the sweep did. */
  function Overtaken(cap: nat, units: nat, policy: FeePolicy): Sys {
    Next(OneADay(cap), Silent(cap, units, policy), PayoutEvent(0, PENDING, None))
  }

  /** The one row has a live payout and nothing recorded. */
  ghost predicate AwaitsSweep(s: Sys) {
    && |s.ws| == 1 && BareRow(s.ws[0]) && s.ws[0].status == Submitting && FindMine(s.payouts, 0).Some? && !Attempted(s, 0)
  }

  predicate BareRow(w: Withdrawal) {
    w.submit.None? && w.settle.None? && w.txid.None? && w.backendRef.None? && w.backend == BtcPay
  }

  lemma SilentAwaitsSweep(cap: nat, units: nat, policy: FeePolicy)
    requires 0 < cap <= units <= Amounts.MAX_UNITS && QuoteFor(policy, cap).Success?
    ensures Reachable(OneADay(cap), Silent(cap, units, policy)) && AwaitsSweep(Silent(cap, units, policy))
  {
    hide Reachable, OnHold, QuoteFor, AmountText, Consistent, HasSystemAccounts, NextDeposit, NextWithdrawal, Claiming;
    var cfg, s0 := OneADay(cap), Claiming(cap, units);
    ClaimingIsReady(cap, units);
    var s := Silent(cap, units, policy);
    ReachableNext(cfg, s0, Create(0, policy, true, false));
    assert s.payouts[0] == s.payouts[|s.payouts| - 1];
  }

  lemma EventMovesOn(b: Book, w: Withdrawal)
    requires BareRow(w) && w.status == Submitting
    ensures ApplyPayoutState(b, [w], 0, w, PENDING, None) == Success((b, w.(status := Submitted)))
    ensures ApplyPayoutState(b, [w.(status := Submitted)], 0, w.(status := Submitted), Adoption.COMPLETION, None) == Failure(NoSubmitEntry)
  {
  }

  lemma EventStep(cfg: Config, s: Sys)
    requires AwaitsSweep(s)
    ensures Next(cfg, s, PayoutEvent(0, PENDING, None)) == s.(ws := [s.ws[0].(status := Submitted)])
  {
    hide ApplyPayoutState, NextWorker, NextDeposit, FindMine, Attempted;
    var w := s.ws[0];
    assert s.ws == [w] && s.ws[0 := w.(status := Submitted)] == [w.(status := Submitted)];
    EventMovesOn(s.book, w);
  }

  lemma SweepIgnores(cfg: Config, s: Sys, i: nat)
    requires i < |s.ws| && s.ws[i].status != Submitting
    ensures Next(cfg, s, ResolveStuck(i)) == s
  {
    hide ResolveDecision, NextDeposit, NextWithdrawal;
  }

  /** Such a run ends in an orphan with a live payout: the sweep does nothing with it, and the
      report of its completion is refused for want of a submit entry. */
  lemma EventsOvertakeTheSweep(cap: nat, units: nat, policy: FeePolicy)
    requires 0 < cap <= units <= Amounts.MAX_UNITS && QuoteFor(policy, cap).Success?
    ensures var cfg, s := OneADay(cap), Overtaken(cap, units, policy);
      && Reachable(cfg, s) && Orphan(s, 0) && Unrecorded(s, 0) && s.ws[0].status == Submitted
      && Next(cfg, s, ResolveStuck(0)) == s
      && ApplyPayoutState(s.book, s.ws, 0, s.ws[0], Adoption.COMPLETION, None) == Failure(NoSubmitEntry)
  {
    hide Reachable, Next, ApplyPayoutState, QuoteFor, Attempted, FindMine, Silent;
    var cfg, s := OneADay(cap), Silent(cap, units, policy);
    SilentAwaitsSweep(cap, units, policy);
    EventStep(cfg, s);
    EventMovesOn(s.book, s.ws[0]);
    ReachableNext(cfg, s, PayoutEvent(0, PENDING, None));
    SameWorkers(s, Overtaken(cap, units, policy), 0);
    SweepIgnores(cfg, Overtaken(cap, units, policy), 0);
  }
}
