/** The velocity cap over whole runs, per asset and per user: for exactly which window lengths
    what was approved without a human stays within the cap, whatever happens. */
module Velocity {
  import opened Texts
  import opened Wrappers
  import opened Sums
  import opened Ledger
  import opened Fees
  import opened Withdrawals
  import opened WithdrawalBooks
  import opened MoneyPath
  import opened MoneyInvariants
  import opened MoneyFlow
  import opened MoneyRuns
  import opened Submission
  import opened Custody
  import opened Scenarios
  import D = Deposits
  import Amounts
  import Tron

  /** Auto-approved, still counting, created in `[from, until)`. */
  function AutoWithin(asset: string, user: Option<string>, from: int, until: int): Withdrawal -> int {
    (w: Withdrawal) =>
      if w.auto && w.asset == asset && from <= w.createdAt < until && CountsTowardCap(w.status)
         && (user.None? || user.value == w.user)
      then w.gross else 0
  }

  function AutoTotal(ws: seq<Withdrawal>, asset: string, user: Option<string>, from: int, until: int): int {
    Sum(ws, AutoWithin(asset, user, from, until))
  }

  /** The cap that binds: the asset's daily cap, or the user's when one is set. */
  function CapFor(row: AssetRow, user: Option<string>): Option<int> {
    if user.None? then Some(row.dailyCap) else row.userDailyCap
  }

  /** A step's clock never runs ahead of the row's own timestamp by more than `skew`. */
  predicate ClockWithin(step: Step, skew: int) {
    step.Hold? ==> step.now <= step.createdAt + skew
  }

  // -- counting is one-way --------------------------------------------------------------------

  /** A row that no longer counts never counts again. */
  predicate StaysOut(w: Withdrawal, w': Withdrawal) {
    SameRequest(w, w') && (CountsTowardCap(w'.status) ==> CountsTowardCap(w.status))
  }

  ghost predicate RowsStayOut(s: Sys, s': Sys) {
    |s.ws| == |s'.ws| && forall i :: 0 <= i < |s.ws| ==> StaysOut(s.ws[i], s'.ws[i])
  }

  lemma AllStayOut(s: Sys)
    ensures RowsStayOut(s, s)
  {
  }

  lemma ReleasedStaysOut(b: Book, i: nat, w: Withdrawal, actor: string, attestation: Option<string>)
    requires ReleaseHold(b, i, w, actor, attestation).Success?
    ensures StaysOut(w, ReleaseHold(b, i, w, actor, attestation).value.1)
  {
    hide PostUnsubmitEntry, Post, UserAccounts, Blank, Strip;
  }

  lemma EventStaysOut(b: Book, ws: seq<Withdrawal>, i: nat, w: Withdrawal, report: Report, actual: Option<int>)
    requires ApplyPayoutState(b, ws, i, w, report, actual).Success?
    ensures StaysOut(w, ApplyPayoutState(b, ws, i, w, report, actual).value.1)
  {
    hide MoveTo, TxidFree;
    var w1 := if report.txid.Some? && w.txid.None? then w.(txid := report.txid) else w;
    if PayoutTarget(report.state).Some? {
      MoveStatusOnly(b, i, w1, PayoutTarget(report.state).value, actual);
    }
  }

  lemma PollStaysOut(b: Book, i: nat, w: Withdrawal, chain: Tron.Chain, height: int, required: int)
    requires PollManual(b, i, w, chain, height, required).Success?
    ensures StaysOut(w, PollManual(b, i, w, chain, height, required).value.1)
  {
    hide PostSettleEntry, Tron.Verdict;
    SettleSetsOnlySettle(b, i, w, None);
  }

  lemma ApprovedStaysOut(b: Book, i: nat, w: Withdrawal, policy: FeePolicy, token: nat)
    requires ApprovedOutcome(b, i, w, policy, token).Success?
    ensures StaysOut(w, ApprovedOutcome(b, i, w, policy, token).value.1)
  {
    hide Post, QuoteFor;
  }

  lemma WithdrawalsStayOut(cfg: Config, s: Sys, step: Step)
    requires !step.Hold?
    ensures RowsStayOut(s, NextWithdrawal(cfg, s, step))
  {
    hide ReleaseHold, ApplyPayoutState, PollManual, ApprovedOutcome, StaysOut, RowsStayOut, Correlated, Tron.Verdict, TxidFree, Normalized;
    AllStayOut(s);
    match step {
      case ApproveRow(i, policy, token) =>
        if i < |s.ws| && ApprovedOutcome(s.book, i, s.ws[i], policy, token).Success? {
          ApprovedStaysOut(s.book, i, s.ws[i], policy, token);
          CommittedStaysOut(s, i, ApprovedOutcome(s.book, i, s.ws[i], policy, token));
        }
      case RejectRow(i, actor) =>
        if i < |s.ws| && s.ws[i].status == PendingApproval {
          RejectedStaysOut(s, i, actor);
        }
      case AdminRelease(i, actor, attestation) =>
        if i < |s.ws| && ReleaseHold(s.book, i, s.ws[i], actor, Some(attestation)).Success? {
          ReleasedStaysOut(s.book, i, s.ws[i], actor, Some(attestation));
          CommittedStaysOut(s, i, ReleaseHold(s.book, i, s.ws[i], actor, Some(attestation)));
        }
      case PayoutEvent(i, report, actual) =>
        if i < |s.ws| && ApplyPayoutState(s.book, s.ws, i, s.ws[i], report, actual).Success? {
          EventStaysOut(s.book, s.ws, i, s.ws[i], report, actual);
          CommittedStaysOut(s, i, ApplyPayoutState(s.book, s.ws, i, s.ws[i], report, actual));
        }
      case OperatorBroadcast(i, txid) =>
        if i < |s.ws| && MarkBroadcast(s.ws, i, s.ws[i], cfg.chain, txid).Success? {
          BroadcastStaysOut(s, i, cfg.chain, txid);
        }
      case OperatorPoll(i, height, required) =>
        if i < |s.ws| && PollManual(s.book, i, s.ws[i], cfg.chain, height, required).Success? {
          PollStaysOut(s.book, i, s.ws[i], cfg.chain, height, required);
          CommittedStaysOut(s, i, PollManual(s.book, i, s.ws[i], cfg.chain, height, required));
        }
      case _ =>
    }
  }

  lemma CommittedStaysOut(s: Sys, i: nat, r: Outcome)
    requires i < |s.ws| && (r.Success? ==> StaysOut(s.ws[i], r.value.1))
    ensures RowsStayOut(s, CommitRow(s, i, r))
  {
  }

  lemma RejectedStaysOut(s: Sys, i: nat, actor: string)
    requires i < |s.ws| && s.ws[i].status == PendingApproval
    ensures RowsStayOut(s, CommitRow(s, i, Reject(s.book, i, s.ws[i], actor)))
  {
    hide ReleaseHold;
    var w := s.ws[i].(status := Rejected);
    if ReleaseHold(s.book, i, w, actor, None).Success? {
      ReleasedStaysOut(s.book, i, w, actor, None);
    }
  }

  lemma BroadcastStaysOut(s: Sys, i: nat, chain: Tron.Chain, txid: string)
    requires i < |s.ws| && MarkBroadcast(s.ws, i, s.ws[i], chain, txid).Success?
    ensures RowsStayOut(s, WithRow(s, i, s.book, MarkBroadcast(s.ws, i, s.ws[i], chain, txid).value))
  {
    hide Tron.Verdict, TxidFree, Normalized;
  }

  lemma RecordedStaysOut(b: Book, i: nat, w: Withdrawal, ref: Reference, q: FeeQuote)
    requires RecordSubmission(b, i, w, ref, q).Success? && CountsTowardCap(w.status)
    ensures StaysOut(w, RecordSubmission(b, i, w, ref, q).value.1)
  {
    hide Post;
  }

  lemma WorkersStayOut(cfg: Config, s: Sys, step: Step)
    requires FlowInv(cfg, s)
    ensures RowsStayOut(s, NextWorker(cfg, s, step))
  {
    hide FlowInv, ReleaseHold, RecordSubmission, QuoteFor, AmountText, ResolveDecision, StaysOut;
    AllRowsStayOut(s);
    match step {
      case Abandon(k, reason) =>
        if Working(s, k) && s.workers[k].phase.Claimed? {
          var i := s.workers[k].row;
          var r := ReleaseHold(s.book, i, s.ws[i], ACTOR_NEVER_SUBMITTED, Some(NeverSentProof(reason)));
          if r.Success? {
            ReleasedStaysOut(s.book, i, s.ws[i], ACTOR_NEVER_SUBMITTED, Some(NeverSentProof(reason)));
          }
        }
      case Record(k) =>
        if Working(s, k) && s.workers[k].phase.Answered? {
          var Worker(i, Answered(p, q)) := s.workers[k];
          AnswerFacts(cfg, s, k);
          if RecordSubmission(s.book, i, s.ws[i], PayoutRef(p), q).Success? {
            RecordedStaysOut(s.book, i, s.ws[i], PayoutRef(p), q);
          }
        }
      case ClaimRow(i) =>
        if i < |s.ws| && Claim(s.ws[i]).Some? {
          ClaimStaysOut(s.ws[i]);
        }
      case ResolveStuck(i) =>
        if i < |s.ws| && Stuck(s.ws[i]) {
          DecisionStaysOut(cfg, s, i);
        }
      case _ =>
    }
  }

  lemma AllRowsStayOut(s: Sys)
    ensures forall i :: 0 <= i < |s.ws| ==> StaysOut(s.ws[i], s.ws[i])
  {
  }

  lemma ClaimStaysOut(w: Withdrawal)
    requires Claim(w).Some?
    ensures StaysOut(w, Claim(w).value)
  {
  }

  lemma DecisionStaysOut(cfg: Config, s: Sys, i: nat)
    requires i < |s.ws| && Stuck(s.ws[i])
    ensures RowsStayOut(s, ResolveDecision(cfg, s, i))
  {
    hide RecordSubmission, QuoteFromPayout, Unclaimed;
    if FindMine(s.payouts, i).Some? {
      var p := FindMine(s.payouts, i).value;
      var q := QuoteFromPayout(s.payouts[p].amount, s.ws[i].gross, Decimals(cfg, s.ws[i].asset));
      if q.Success? && RecordSubmission(s.book, i, s.ws[i], PayoutRef(p), q.value).Success? {
        RecordedStaysOut(s.book, i, s.ws[i], PayoutRef(p), q.value);
      }
    }
  }

  lemma NextStaysOut(cfg: Config, s: Sys, step: Step)
    requires FlowInv(cfg, s) && !step.Hold?
    ensures RowsStayOut(s, Next(cfg, s, step))
  {
    hide NextWithdrawal, NextWorker, NextDeposit, FlowInv, RowsStayOut;
    if IsDepositStep(step) {
      DepositsLeaveRows(s, step);
      AllStayOut(s);
      SameRowsStayOut(s, NextDeposit(s, step));
    } else if IsWorkerStep(step) {
      WorkersStayOut(cfg, s, step);
    } else {
      WithdrawalsStayOut(cfg, s, step);
    }
  }

  lemma SameRowsStayOut(s: Sys, s': Sys)
    requires s'.ws == s.ws
    ensures RowsStayOut(s, s')
  {
  }

  // -- the window -------------------------------------------------------------------------------

  ghost predicate Positive(s: Sys) {
    forall i :: 0 <= i < |s.ws| ==> s.ws[i].gross > 0
  }

  lemma TotalStaysOut(s: Sys, s': Sys, asset: string, user: Option<string>, from: int, until: int)
    requires RowsStayOut(s, s') && Positive(s)
    ensures AutoTotal(s'.ws, asset, user, from, until) <= AutoTotal(s.ws, asset, user, from, until)
  {
    ShrinkingSum(s.ws, s'.ws, AutoWithin(asset, user, from, until));
  }

  lemma {:induction false} ShrinkingSum(ws: seq<Withdrawal>, ws': seq<Withdrawal>, f: Withdrawal -> int)
    requires |ws| == |ws'| && forall i :: 0 <= i < |ws| ==> f(ws'[i]) <= f(ws[i])
    ensures Sum(ws', f) <= Sum(ws, f)
  {
    if ws != [] {
      ShrinkingSum(ws[..|ws| - 1], ws'[..|ws| - 1], f);
    }
  }

  /** When the new row is approved without a human, the window it falls into had room for it. */
  lemma WindowHadRoom(ws: seq<Withdrawal>, asset: string, user: Option<string>, from: int, until: int, now: int)
    requires forall i :: 0 <= i < |ws| ==> ws[i].gross > 0
    requires now - VELOCITY_WINDOW <= from
    ensures AutoTotal(ws, asset, user, from, until) <= VelocitySum(ws, asset, user, now)
  {
    SumAtMost(ws, AutoWithin(asset, user, from, until), InWindow(asset, user, now - VELOCITY_WINDOW));
  }

  ghost predicate Capped(cfg: Config, s: Sys, asset: string, user: Option<string>, from: int, until: int) {
    asset in cfg.assets && CapFor(cfg.assets[asset], user).Some? ==>
      var total := AutoTotal(s.ws, asset, user, from, until);
      total == 0 || total <= CapFor(cfg.assets[asset], user).value
  }

  /** Windows this short see every row they hold when the last of them is approved. */
  predicate WithinLimit(length: int, skew: int) {
    length <= VELOCITY_WINDOW + 1 - skew
  }

  lemma HoldStaysCapped(cfg: Config, s: Sys, req: Request, now: int, createdAt: int, skew: int,
                        asset: string, user: Option<string>, from: int, length: int)
    requires Positive(s) && now <= createdAt + skew && WithinLimit(length, skew)
    requires Capped(cfg, s, asset, user, from, from + length)
    ensures Capped(cfg, NextWithdrawal(cfg, s, Hold(req, now, createdAt)), asset, user, from, from + length)
  {
    hide PlaceHold, NeedsManual;
    var until := from + length;
    var r := PlaceHold(s.book, s.ws, cfg.assets, req, now, createdAt);
    if r.Success? {
      HoldHasNoSubmit(s.book, s.ws, cfg.assets, req, now, createdAt);
      var w := r.value.1;
      SumAppend(s.ws, w, AutoWithin(asset, user, from, until));
      if w.auto && w.asset == asset && from <= createdAt < until && (user.None? || user.value == w.user) {
        WindowHadRoom(s.ws, asset, user, from, until, now);
        AutoHasRoom(s.ws, cfg.assets[asset], req, now, user);
      }
    }
  }

  lemma AutoHasRoom(ws: seq<Withdrawal>, row: AssetRow, req: Request, now: int, user: Option<string>)
    requires !NeedsManual(ws, row, req.asset, req.user, req.gross, req.forceManual, now)
    requires user.None? || user.value == req.user
    ensures CapFor(row, user).Some? ==> VelocitySum(ws, req.asset, user, now) + req.gross <= CapFor(row, user).value
  {
    hide VelocitySum;
  }

  lemma AutoTotalNonNegative(ws: seq<Withdrawal>, asset: string, user: Option<string>, from: int, until: int)
    requires forall i :: 0 <= i < |ws| ==> ws[i].gross > 0
    ensures AutoTotal(ws, asset, user, from, until) >= 0
  {
    SumNonNegative(ws, AutoWithin(asset, user, from, until));
  }

  lemma StepStaysCapped(cfg: Config, s: Sys, step: Step, skew: int, asset: string, user: Option<string>, from: int, length: int)
    requires FlowInv(cfg, s) && Positive(s) && Positive(Next(cfg, s, step)) && ClockWithin(step, skew) && WithinLimit(length, skew)
    requires Capped(cfg, s, asset, user, from, from + length)
    ensures Capped(cfg, Next(cfg, s, step), asset, user, from, from + length)
  {
    hide NextWithdrawal, NextWorker, NextDeposit, FlowInv, AutoTotal, Positive;
    var s' := Next(cfg, s, step);
    if step.Hold? {
      HoldStaysCapped(cfg, s, step.req, step.now, step.createdAt, skew, asset, user, from, length);
    } else {
      NextStaysOut(cfg, s, step);
      TotalStaysOut(s, s', asset, user, from, from + length);
      PositiveTotals(s', asset, user, from, from + length);
    }
  }

  lemma PositiveTotals(s: Sys, asset: string, user: Option<string>, from: int, until: int)
    requires Positive(s)
    ensures AutoTotal(s.ws, asset, user, from, until) >= 0
  {
    AutoTotalNonNegative(s.ws, asset, user, from, until);
  }

  lemma SoundIsPositive(s: Sys)
    requires LedgerInv(s)
    ensures Positive(s)
  {
    hide Consistent, PostedTo, StatusOk, D.DepositOk;
    forall i | 0 <= i < |s.ws| ensures s.ws[i].gross > 0 {
      assert RowInv(s.book, s.ws[i]);
    }
  }

  // -- every run keeps the cap ---------------------------------------------------------------------

  /** Reachable while the clock never ran ahead of a row's timestamp by more than `skew`. */
  ghost predicate Punctual(cfg: Config, s: Sys, skew: int) {
    exists states, steps :: PunctualHistory(cfg, states, steps, skew) && states[|steps|] == s
  }

  ghost predicate PunctualHistory(cfg: Config, states: seq<Sys>, steps: seq<Step>, skew: int) {
    History(cfg, states, steps) && forall k :: 0 <= k < |steps| ==> ClockWithin(steps[k], skew)
  }

  lemma {:induction false} HistoryStaysCapped(cfg: Config, states: seq<Sys>, steps: seq<Step>, n: nat, skew: int,
                                              asset: string, user: Option<string>, from: int, length: int)
    requires PunctualHistory(cfg, states, steps, skew) && n <= |steps| && WithinLimit(length, skew)
    ensures Capped(cfg, states[n], asset, user, from, from + length)
  {
    hide Next, Admissible, LedgerInv, FlowInv, Positive, ClockWithin, WithinLimit;
    if n > 0 {
      hide IsInitial, Capped;
      HistoryStaysCapped(cfg, states, steps, n - 1, skew, asset, user, from, length);
      assert StepAt(cfg, states, steps, n - 1);
      HistoryKept(cfg, states, steps, n - 1, _ => true);
      HistoryKept(cfg, states, steps, n, _ => true);
      SoundIsPositive(states[n - 1]);
      SoundIsPositive(states[n]);
      StepStaysCapped(cfg, states[n - 1], steps[n - 1], skew, asset, user, from, length);
    }
  }

  /** With fixed caps, in every state of every history and for every window of `length`, what was
      approved without a human and still counts is within the asset's daily cap, and within the
      user's when one is set, as long as the window is covered. */
  lemma VelocityCapHolds(cfg: Config, s: Sys, skew: int, asset: string, user: Option<string>, from: int, length: int)
    requires Punctual(cfg, s, skew) && WithinLimit(length, skew)
    ensures Capped(cfg, s, asset, user, from, from + length)
  {
    hide IsInitial, StepAt, Capped, ClockWithin, WithinLimit;
    var states, steps :| PunctualHistory(cfg, states, steps, skew) && states[|steps|] == s;
    HistoryStaysCapped(cfg, states, steps, |steps|, skew, asset, user, from, length);
  }

  lemma PunctualNext(cfg: Config, s: Sys, step: Step, skew: int)
    requires Punctual(cfg, s, skew) && Admissible(s, step) && ClockWithin(step, skew)
    ensures Punctual(cfg, Next(cfg, s, step), skew)
  {
    hide Next, Admissible, IsInitial, ClockWithin;
    var states, steps :| PunctualHistory(cfg, states, steps, skew) && states[|steps|] == s;
    var states', steps' := states + [Next(cfg, s, step)], steps + [step];
    forall n | 0 <= n < |steps'| ensures StepAt(cfg, states', steps', n) {
      assert n < |steps| ==> StepAt(cfg, states, steps, n);
    }
    assert PunctualHistory(cfg, states', steps', skew);
  }

  // -- and no longer window is safe ------------------------------------------------------------------

  /** Two withdrawals of the whole cap, the second stamped `length - 1` after the first while the
      clock that the window is measured with runs `skew` ahead. */
  function TwoCaps(cap: nat, skew: int, length: int): Sys {
    Next(OneADay(cap), OnHold(cap, 2 * cap, skew), Hold(FullRequest(cap), length - 1 + skew, length - 1))
  }

  lemma OnHoldIsPunctual(cap: nat, units: nat, skew: int)
    ensures Punctual(OneADay(cap), OnHold(cap, units, skew), skew)
  {
    hide Next, Seeded, Payment, StepAt;
    StartIsInitial();
    var cfg := OneADay(cap);
    var states, steps: seq<Step> := [Start()], [];
    assert PunctualHistory(cfg, states, steps, skew) && states[|steps|] == Start();
    PunctualNext(cfg, Start(), OPENING, skew);
    PunctualNext(cfg, Next(cfg, Start(), OPENING), ApplyInvoice(0, Payment(units), TERMS), skew);
    PunctualNext(cfg, Funded(cfg, units), Hold(FullRequest(cap), skew, 0), skew);
  }


  /** What a window of `length` from the first row on adds up to. */
  lemma TwoCapsTogether(cap: nat, skew: int, length: int, user: Option<string>)
    requires 0 < 2 * cap <= Amounts.MAX_UNITS && length > 0 && !WithinLimit(length, skew) && (user.None? || user.value == HOLDER)
    ensures AutoTotal(TwoCaps(cap, skew, length).ws, COIN, user, 0, length) == 2 * cap
  {
    hide OnHold, Consistent, Extends, HasSystemAccounts, Balance, PlaceHold, HoldShare, NextDeposit, NextWorker, NeedsManual, AutoTotal;
    var assets, req := OneADay(cap).assets, FullRequest(cap);
    OnHoldIsReady(cap, 2 * cap, skew);
    var s := OnHold(cap, 2 * cap, skew);
    var w1 := s.ws[0];
    assert s.ws == [w1];
    NotPosted(s.book.entries, WithdrawalHold, WithdrawalRef("withdrawal_hold", 1));
    HoldIsPlaced(s.book, s.ws, assets, req, length - 1 + skew, length - 1);
    SecondIsAutomatic(cap, w1, skew, length);
    var w2 := PlaceHold(s.book, s.ws, assets, req, length - 1 + skew, length - 1).value.1;
    assert [w1] + [w2] == [w1, w2];
    TotalOfTwo(w1, w2, cap, length, user);
  }

  lemma TotalOfTwo(w1: Withdrawal, w2: Withdrawal, cap: nat, length: int, user: Option<string>)
    requires AutoHold(w1, cap, 0) && AutoHold(w2, cap, length - 1) && length > 0 && (user.None? || user.value == HOLDER)
    ensures AutoTotal([w1, w2], COIN, user, 0, length) == 2 * cap
  {
    SumAppend([], w1, AutoWithin(COIN, user, 0, length));
    SumAppend([w1], w2, AutoWithin(COIN, user, 0, length));
    assert [] + [w1] == [w1] && [w1] + [w2] == [w1, w2];
  }

  /** The first row is already outside the window that the second is checked against. */
  lemma SecondIsAutomatic(cap: nat, w: Withdrawal, skew: int, length: int)
    requires w.createdAt == 0 && !WithinLimit(length, skew)
    ensures !NeedsManual([w], OneADay(cap).assets[COIN], COIN, HOLDER, cap, false, length - 1 + skew)
  {
    var since := length - 1 + skew - VELOCITY_WINDOW;
    SumAppend([], w, InWindow(COIN, None, since));
    SumAppend([], w, InWindow(COIN, Some(HOLDER), since));
    assert [] + [w] == [w];
  }

  /** The run exists: every withdrawal in it was approved without a human, and together they are
      twice the asset's cap and twice the user's. */
  lemma TwoCapsInOneWindow(cap: nat, skew: int, length: int, user: Option<string>)
    requires 0 < 2 * cap <= Amounts.MAX_UNITS && length > 0 && !WithinLimit(length, skew) && (user.None? || user.value == HOLDER)
    ensures Punctual(OneADay(cap), TwoCaps(cap, skew, length), skew)
    ensures !Capped(OneADay(cap), TwoCaps(cap, skew, length), COIN, user, 0, length)
  {
    hide Next, OnHold, Punctual, AutoTotal;
    OnHoldIsPunctual(cap, 2 * cap, skew);
    PunctualNext(OneADay(cap), OnHold(cap, 2 * cap, skew), Hold(FullRequest(cap), length - 1 + skew, length - 1), skew);
    TwoCapsTogether(cap, skew, length, user);
  }

  ghost predicate WindowCapped(cfg: Config, s: Sys, asset: string, user: Option<string>, from: int, length: int) {
    Capped(cfg, s, asset, user, from, from + length)
  }

  /** In every history whose clock runs ahead of the rows by at most `skew`, for every asset and
      every window of `length`, the cap holds: the asset's, or each user's. */
  ghost predicate CapHolds(length: int, skew: int, perUser: bool) {
    forall cfg, s, asset, user: Option<string>, from |
      Punctual(cfg, s, skew) && user.Some? == perUser :: WindowCapped(cfg, s, asset, user, from, length)
  }

  /** A window is safe if and only if it is empty or no longer than the limit's own, plus one
      tick, less the skew. So the promised 24 hours hold exactly when the clock that measures the
      window runs at most one tick ahead of the one that stamps the rows. */
  lemma VelocityCapExact(length: int, skew: int, perUser: bool)
    ensures CapHolds(length, skew, perUser) <==> length <= 0 || WithinLimit(length, skew)
    ensures CapHolds(VELOCITY_WINDOW, skew, perUser) <==> skew <= 1
  {
    SafeExactlyWithinLimit(length, skew, perUser);
    SafeExactlyWithinLimit(VELOCITY_WINDOW, skew, perUser);
  }

  lemma SafeExactlyWithinLimit(length: int, skew: int, perUser: bool)
    ensures CapHolds(length, skew, perUser) <==> length <= 0 || WithinLimit(length, skew)
  {
    hide Punctual, Capped, TwoCaps;
    if length <= 0 || WithinLimit(length, skew) {
      forall cfg, s, asset, user: Option<string>, from | Punctual(cfg, s, skew) && user.Some? == perUser
        ensures WindowCapped(cfg, s, asset, user, from, length)
      {
        if WithinLimit(length, skew) {
          VelocityCapHolds(cfg, s, skew, asset, user, from, length);
        } else {
          EmptyWindow(cfg, s, asset, user, from, length);
        }
      }
    } else {
      var user := if perUser then Some(HOLDER) else None;
      TwoCapsInOneWindow(1, skew, length, user);
      assert !WindowCapped(OneADay(1), TwoCaps(1, skew, length), COIN, user, 0, length);
    }
  }

  lemma EmptyWindow(cfg: Config, s: Sys, asset: string, user: Option<string>, from: int, length: int)
    requires length <= 0
    ensures Capped(cfg, s, asset, user, from, from + length)
  {
    EmptyTotal(s.ws, asset, user, from, from + length);
  }

  lemma {:induction false} EmptyTotal(ws: seq<Withdrawal>, asset: string, user: Option<string>, from: int, until: int)
    requires until <= from
    ensures AutoTotal(ws, asset, user, from, until) == 0
  {
    if ws != [] {
      EmptyTotal(ws[..|ws| - 1], asset, user, from, until);
    }
  }
}
