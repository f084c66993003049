/** The payout worker's two sweeps over mutable state, and that each of them is a run of the
    step system, whatever the rail does in the middle. */
module PayoutSubmitter {
  import opened Wrappers
  import opened Fees
  import opened Withdrawals
  import opened MoneyPath
  import opened MoneyRuns
  import D = Deposits
  import WS = WithdrawalSession

  /** What the world does to one submission: the fee policy of the moment, whether the
      destination is still usable, and whether the rail created the payout and answered. */
  datatype Circumstances = Circumstances(policy: FeePolicy, refusal: Option<string>, created: bool, answered: bool)

  datatype SubmitReport = SubmitReport(submitted: nat, failed: nat, skipped: nat, adopted: nat, frozen: nat, resubmittable: nat)

  const EMPTY := SubmitReport(0, 0, 0, 0, 0, 0)

  datatype Fate = Submitted | Failed | Skipped | Adopted | Frozen | Resubmittable

  function Count(report: SubmitReport, fate: Fate): SubmitReport {
    match fate
    case Submitted => report.(submitted := report.submitted + 1)
    case Failed => report.(failed := report.failed + 1)
    case Skipped => report.(skipped := report.skipped + 1)
    case Adopted => report.(adopted := report.adopted + 1)
    case Frozen => report.(frozen := report.frozen + 1)
    case Resubmittable => report.(resubmittable := report.resubmittable + 1)
  }

  // -- what one row's turn commits ------------------------------------------------------------

  const DUST := "fee re-check failed"

  function AbandonReason(w: Withdrawal, c: Circumstances): Option<string> {
    if QuoteFor(c.policy, w.gross).Failure? then Some(DUST) else c.refusal
  }

  /** The steps of one candidate's turn. `k` is the worker the claim would create. */
  function Turn(s: Sys, i: nat, c: Circumstances): seq<Step> {
    var k := |s.workers|;
    if i >= |s.ws| || Claim(s.ws[i]).None? then [ClaimRow(i)]
    else match AbandonReason(s.ws[i], c)
      case Some(reason) => [ClaimRow(i), Abandon(k, reason)]
      case None =>
        if c.created && c.answered then [ClaimRow(i), Create(k, c.policy, true, true), Record(k)]
        else [ClaimRow(i), Create(k, c.policy, c.created, false)]
  }

  /** How the turn is counted, unless an error ends the sweep. */
  function FateOf(s: Sys, i: nat, c: Circumstances): Fate {
    if i >= |s.ws| || Claim(s.ws[i]).None? then Skipped
    else if AbandonReason(s.ws[i], c).Some? || !(c.created && c.answered) then Fate.Failed
    else Fate.Submitted
  }

  /** The state a list of steps leads to. */
  function Run(cfg: Config, s: Sys, steps: seq<Step>): Sys {
    if steps == [] then s else Next(cfg, Run(cfg, s, steps[..|steps| - 1]), steps[|steps| - 1])
  }

  ghost predicate AdmissibleAt(cfg: Config, s: Sys, steps: seq<Step>, n: nat)
    requires n < |steps|
  {
    Admissible(Run(cfg, s, steps[..n]), steps[n])
  }

  /** A sweep that starts in a reachable state and whose steps are admissible in their turn ends
      in a reachable state. */
  lemma {:induction false} SweepsStayReachable(cfg: Config, s: Sys, steps: seq<Step>)
    requires Reachable(cfg, s) && forall n :: 0 <= n < |steps| ==> AdmissibleAt(cfg, s, steps, n)
    ensures Reachable(cfg, Run(cfg, s, steps))
  {
    hide Next, Admissible, Reachable;
    if steps != [] {
      var before := steps[..|steps| - 1];
      forall n | 0 <= n < |before| ensures AdmissibleAt(cfg, s, before, n) {
        assert AdmissibleAt(cfg, s, steps, n) && before[..n] == steps[..n];
      }
      SweepsStayReachable(cfg, s, before);
      assert AdmissibleAt(cfg, s, steps, |before|);
      ReachableNext(cfg, Run(cfg, s, before), steps[|before|]);
    }
  }

  /** All turns, in order. */
  function Turns(cfg: Config, s: Sys, candidates: seq<nat>, world: seq<Circumstances>): seq<Step>
    requires |world| == |candidates|
  {
    if candidates == [] then []
    else
      var n := |candidates| - 1;
      var before := Turns(cfg, s, candidates[..n], world[..n]);
      before + Turn(Run(cfg, s, before), candidates[n], world[n])
  }

  /** The report of a sweep that no error ended: each candidate counted by where its own turn,
      in the state the turns before it left, took it. */
  function SweepReport(cfg: Config, s: Sys, candidates: seq<nat>, world: seq<Circumstances>): SubmitReport
    requires |world| == |candidates|
  {
    if candidates == [] then EMPTY
    else
      var n := |candidates| - 1;
      var s1 := Run(cfg, s, Turns(cfg, s, candidates[..n], world[..n]));
      Count(SweepReport(cfg, s, candidates[..n], world[..n]), FateOf(s1, candidates[n], world[n]))
  }

  lemma {:induction false} RunAppend(cfg: Config, s: Sys, before: seq<Step>, after: seq<Step>)
    ensures Run(cfg, s, before + after) == Run(cfg, Run(cfg, s, before), after)
  {
    hide Next;
    if after == [] {
      assert before + after == before;
    } else {
      var n := |after| - 1;
      RunAppend(cfg, s, before, after[..n]);
      assert (before + after)[..|before + after| - 1] == before + after[..n];
    }
  }

  lemma RunOne(cfg: Config, s: Sys, a: Step)
    ensures Run(cfg, s, [a]) == Next(cfg, s, a)
  {
    hide Next;
    assert [a][..0] == [];
  }

  lemma RunTwo(cfg: Config, s: Sys, a: Step, b: Step)
    ensures Run(cfg, s, [a, b]) == Next(cfg, Next(cfg, s, a), b)
  {
    hide Next;
    RunOne(cfg, s, a);
    assert [a, b][..1] == [a];
  }

  lemma RunThree(cfg: Config, s: Sys, a: Step, b: Step, c: Step)
    ensures Run(cfg, s, [a, b, c]) == Next(cfg, Next(cfg, Next(cfg, s, a), b), c)
  {
    hide Next;
    RunTwo(cfg, s, a, b);
    assert [a, b, c][..2] == [a, b];
  }

  /** The positions of the lookalikes among the first `n` payouts. */
  function Lookalikes(payouts: seq<Payout>, destination: string, n: nat): (r: seq<nat>)
    requires n <= |payouts|
    ensures r == [] <==> !exists p :: 0 <= p < n && Unclaimed(payouts[p], destination)
  {
    if n == 0 then []
    else Lookalikes(payouts, destination, n - 1) + if Unclaimed(payouts[n - 1], destination) then [n - 1] else []
  }

  /** Resolves a submission whose outcome was never recorded: the payout that carries this
      withdrawal's id, and every other payout to the destination that carries none. */
  method FindForWithdrawal(payouts: seq<Payout>, i: nat, destination: string) returns (mine: Option<nat>, unclaimed: seq<nat>)
    ensures mine == FindMine(payouts, i)
    ensures unclaimed == Lookalikes(payouts, destination, |payouts|)
  {
    mine, unclaimed := None, [];
    for p := 0 to |payouts|
      invariant mine == FindMine(payouts[..p], i)
      invariant unclaimed == Lookalikes(payouts, destination, p)
    {
      var payout := payouts[p];
      assert payouts[..p + 1][..p] == payouts[..p];
      assert FindMine(payouts[..p + 1], i) == if LiveFor(payout, i) then Some(p) else FindMine(payouts[..p], i);
      if payout.cancelled {
        continue;
      }
      if payout.echo == Some(i) {
        mine := Some(p);
        continue;
      }
      if payout.echo.None? && payout.destination == destination {
        unclaimed := unclaimed + [p];
      }
    }
    assert payouts[..|payouts|] == payouts;
  }

  // -- the worker ------------------------------------------------------------------------------

  class Submitter {
    const cfg: Config
    const session: WS.Session
    var payouts: seq<Payout>
    ghost var workers: seq<Worker>
    ghost var deposits: seq<D.Deposit>

    constructor (cfg: Config, session: WS.Session)
      ensures this.cfg == cfg && this.session == session && payouts == [] && workers == [] && deposits == []
    {
      this.cfg, this.session, payouts := cfg, session, [];
      workers, deposits := [], [];
    }

    ghost function State(): Sys
      reads this, session, session.ledger
    {
      Sys(session.Books(), session.rows, deposits, payouts, workers)
    }

    /** Claims one row and takes it as far as the world lets it get. */
    method SubmitOne(i: nat, c: Circumstances) returns (fate: Result<Fate, Error>)
      requires i < |session.rows|
      modifies this, session, session.ledger
      ensures State() == Run(cfg, old(State()), Turn(old(State()), i, c))
      ensures |session.rows| == |old(session.rows)|
      ensures fate.Success? ==> fate.value == FateOf(old(State()), i, c)
    {
      hide ReleaseHold, RecordSubmission, QuoteFor, AmountText, Next, Run;
      ghost var s0 := State();
      ghost var k := |workers|;
      RunOne(cfg, s0, ClaimRow(i));
      var won := ClaimFor(i);
      if !won {
        return Success(Skipped);
      }
      var quote := QuoteFor(c.policy, session.rows[i].gross);
      if quote.Failure? {
        RunTwo(cfg, s0, ClaimRow(i), Abandon(k, DUST));
        fate := AbandonBeforeSending(i, DUST, k);
        return;
      }
      if c.refusal.Some? {
        RunTwo(cfg, s0, ClaimRow(i), Abandon(k, c.refusal.value));
        fate := AbandonBeforeSending(i, c.refusal.value, k);
        return;
      }
      var p := Initiate(i, c, quote.value, k);
      if p.None? {
        // Not retried and not failed: the payout may exist, so the row stays claimed.
        RunTwo(cfg, s0, ClaimRow(i), Create(k, c.policy, c.created, false));
        return Success(Fate.Failed);
      }
      RunThree(cfg, s0, ClaimRow(i), Create(k, c.policy, true, true), Record(k));
      fate := RecordPayout(i, p.value, quote.value, k);
    }

    method ClaimFor(i: nat) returns (won: bool)
      requires i < |session.rows|
      modifies this, session
      ensures State() == Next(cfg, old(State()), ClaimRow(i))
      ensures won <==> Claim(old(session.rows[i])).Some?
      ensures |session.rows| == |old(session.rows)|
      ensures won ==> workers == old(workers) + [Worker(i, MoneyPath.Claimed)] && session.rows[i].gross == old(session.rows[i]).gross
    {
      hide NextWithdrawal, NextDeposit;
      won := session.ClaimForSubmission(i);
      if won {
        workers := workers + [Worker(i, MoneyPath.Claimed)];
      }
    }

    /** The rail call. None when no answer came back, whether or not a payout exists now. */
    method Initiate(i: nat, c: Circumstances, quote: FeeQuote, ghost k: nat) returns (p: Option<nat>)
      requires i < |session.rows| && k < |workers| && workers[k] == Worker(i, MoneyPath.Claimed)
      requires QuoteFor(c.policy, session.rows[i].gross) == Success(quote)
      modifies this
      ensures State() == Next(cfg, old(State()), Create(k, c.policy, c.created, c.created && c.answered))
      ensures p.Some? <==> c.created && c.answered
      ensures p.Some? ==> k < |workers| && workers[k] == Worker(i, Answered(p.value, quote))
    {
      hide NextWithdrawal, NextDeposit, QuoteFor, AmountText;
      if c.created {
        payouts := payouts + [Payout(Some(i), session.rows[i].destination,
                                     AmountText(quote.net, Decimals(cfg, session.rows[i].asset)), false)];
      }
      if !(c.created && c.answered) {
        workers := workers[k := Worker(i, Done)];
        return None;
      }
      workers := workers[k := Worker(i, Answered(|payouts| - 1, quote))];
      return Some(|payouts| - 1);
    }

    method RecordPayout(i: nat, p: nat, quote: FeeQuote, ghost k: nat) returns (fate: Result<Fate, Error>)
      requires i < |session.rows| && k < |workers| && workers[k] == Worker(i, Answered(p, quote))
      modifies this, session, session.ledger
      ensures State() == Next(cfg, old(State()), Record(k))
      ensures |session.rows| == |old(session.rows)|
      ensures fate.Success? ==> fate.value == Fate.Submitted
    {
      hide NextWithdrawal, NextDeposit, RecordSubmission;
      var recorded := session.Record(i, PayoutRef(p), quote);
      workers := workers[k := Worker(i, Done)];
      return if recorded.Failure? then Failure(recorded.error) else Success(Fate.Submitted);
    }

    /** Gives the hold back on a row this worker refused to send. */
    method AbandonBeforeSending(i: nat, reason: string, ghost k: nat) returns (fate: Result<Fate, Error>)
      requires i < |session.rows| && k < |workers| && workers[k] == Worker(i, MoneyPath.Claimed)
      modifies this, session, session.ledger
      ensures State() == Next(cfg, old(State()), Abandon(k, reason))
      ensures |session.rows| == |old(session.rows)|
      ensures fate.Success? ==> fate.value == Fate.Failed
    {
      hide ReleaseHold, NextWithdrawal, NextDeposit;
      var released := session.ReleaseHold(i, ACTOR_NEVER_SUBMITTED, Some(NeverSentProof(reason)));
      workers := workers[k := Worker(i, Done)];
      return if released.Failure? then Failure(released.error) else Success(Fate.Failed);
    }

    /** `submit_approved`: every candidate in turn; an error ends the sweep where it stands. */
    method SubmitApproved(candidates: seq<nat>, world: seq<Circumstances>) returns (r: Result<SubmitReport, Error>, ghost done: nat)
      requires |world| == |candidates|
      requires forall n :: 0 <= n < |candidates| ==> candidates[n] < |session.rows|
      modifies this, session, session.ledger
      ensures done <= |candidates| && (r.Success? ==> done == |candidates|)
      ensures State() == Run(cfg, old(State()), Turns(cfg, old(State()), candidates[..done], world[..done]))
      ensures r.Success? ==> r.value == SweepReport(cfg, old(State()), candidates, world)
      ensures r.Success? ==> r.value.submitted + r.value.failed + r.value.skipped == |candidates|
    {
      hide Run, Turn, FateOf;
      var report := EMPTY;
      done := 0;
      NoTurns(cfg, State(), candidates, world);
      for n := 0 to |candidates|
        invariant done == n && |session.rows| == |old(session.rows)|
        invariant State() == Run(cfg, old(State()), Turns(cfg, old(State()), candidates[..n], world[..n]))
        invariant report == SweepReport(cfg, old(State()), candidates[..n], world[..n])
        invariant report.submitted + report.failed + report.skipped == n
        invariant report.adopted == 0 && report.frozen == 0 && report.resubmittable == 0
      {
        NextTurn(cfg, old(State()), candidates, world, n);
        FateIsTurned(State(), candidates[n], world[n]);
        assert candidates[..n + 1][..n] == candidates[..n] && world[..n + 1][..n] == world[..n];
        var fate := SubmitOne(candidates[n], world[n]);
        done := n + 1;
        if fate.Failure? {
          return Failure(fate.error), done;
        }
        report := Count(report, fate.value);
      }
      assert candidates[..|candidates|] == candidates && world[..|candidates|] == world;
      return Success(report), done;
    }

    static lemma FateIsTurned(s: Sys, i: nat, c: Circumstances)
      ensures FateOf(s, i, c) in {Fate.Submitted, Fate.Failed, Skipped}
    {
    }

    static lemma NoTurns(cfg: Config, s: Sys, candidates: seq<nat>, world: seq<Circumstances>)
      requires |world| == |candidates|
      ensures Run(cfg, s, Turns(cfg, s, candidates[..0], world[..0])) == s
    {
    }

    static lemma NextTurn(cfg: Config, s: Sys, candidates: seq<nat>, world: seq<Circumstances>, n: nat)
      requires |world| == |candidates| && n < |candidates|
      ensures var s1 := Run(cfg, s, Turns(cfg, s, candidates[..n], world[..n]));
        Run(cfg, s, Turns(cfg, s, candidates[..n + 1], world[..n + 1])) == Run(cfg, s1, Turn(s1, candidates[n], world[n]))
    {
      hide Run, Turn;
      assert candidates[..n + 1][..n] == candidates[..n] && world[..n + 1][..n] == world[..n];
      var before := Turns(cfg, s, candidates[..n], world[..n]);
      RunAppend(cfg, s, before, Turn(Run(cfg, s, before), candidates[n], world[n]));
    }

    /** Decides what happened to one submission whose outcome was never written down. */
    method ResolveOne(i: nat, reachable: bool) returns (fate: Result<Option<Fate>, Error>)
      requires i < |session.rows|
      modifies session, session.ledger
      ensures State() == Resolved(cfg, old(State()), i, reachable)
      ensures |session.rows| == |old(session.rows)|
      ensures fate.Success? ==> fate.value == ResolvedFate(old(State()), i, reachable)
    {
      hide RecordSubmission, QuoteFromPayout, Unclaimed;
      if !reachable {
        return Success(None);
      }
      var w := session.rows[i];
      var mine, unclaimed := FindForWithdrawal(payouts, i, w.destination);
      if mine.Some? {
        var quote := QuoteFromPayout(payouts[mine.value].amount, w.gross, Decimals(cfg, w.asset));
        if quote.Failure? {
          return Failure(quote.error);
        }
        var recorded := session.Record(i, PayoutRef(mine.value), quote.value);
        return if recorded.Failure? then Failure(recorded.error) else Success(Some(Adopted));
      }
      if unclaimed != [] {
        return Success(Some(Frozen));
      }
      session.rows := session.rows[i := session.rows[i].(status := Approved)];
      return Success(Some(Resubmittable));
    }

    /** `resolve_stuck`: every row the query selected, decided on in turn. */
    method ResolveStuck(stuck: seq<nat>, reachable: seq<bool>) returns (r: Result<SubmitReport, Error>, ghost done: nat)
      requires |reachable| == |stuck| && forall n :: 0 <= n < |stuck| ==> stuck[n] < |session.rows|
      modifies session, session.ledger
      ensures done <= |stuck| && (r.Success? ==> done == |stuck|)
      ensures State() == Decisions(cfg, old(State()), stuck[..done], reachable[..done])
      ensures r.Success? ==> r.value == CrashReport(cfg, old(State()), stuck, reachable)
    {
      hide Resolved, ResolvedFate;
      var report := EMPTY;
      done := 0;
      for n := 0 to |stuck|
        invariant done == n && |session.rows| == |old(session.rows)|
        invariant State() == Decisions(cfg, old(State()), stuck[..n], reachable[..n])
        invariant report == CrashReport(cfg, old(State()), stuck[..n], reachable[..n])
      {
        assert stuck[..n + 1][..n] == stuck[..n] && reachable[..n + 1][..n] == reachable[..n];
        var fate := ResolveOne(stuck[n], reachable[n]);
        done := n + 1;
        if fate.Failure? {
          return Failure(fate.error), done;
        }
        if fate.value.Some? {
          report := Count(report, fate.value.value);
        }
      }
      assert stuck[..|stuck|] == stuck && reachable[..|stuck|] == reachable;
      return Success(report), done;
    }
  }

  // -- the sweep as steps ------------------------------------------------------------------------

  function Resolved(cfg: Config, s: Sys, i: nat, reachable: bool): Sys {
    if reachable && i < |s.ws| then ResolveDecision(cfg, s, i) else s
  }

  function ResolvedFate(s: Sys, i: nat, reachable: bool): Option<Fate> {
    if !reachable || i >= |s.ws| then None
    else if FindMine(s.payouts, i).Some? then Some(Adopted)
    else if exists p :: 0 <= p < |s.payouts| && Unclaimed(s.payouts[p], s.ws[i].destination) then Some(Frozen)
    else Some(Resubmittable)
  }

  function Decisions(cfg: Config, s: Sys, stuck: seq<nat>, reachable: seq<bool>): Sys
    requires |reachable| == |stuck|
  {
    if stuck == [] then s
    else
      var n := |stuck| - 1;
      Resolved(cfg, Decisions(cfg, s, stuck[..n], reachable[..n]), stuck[n], reachable[n])
  }

  /** The report of a crash sweep: each row counted by what was decided about it, in the state the
      decisions before it left. A row whose backend cannot be reached is not counted. */
  function CrashReport(cfg: Config, s: Sys, stuck: seq<nat>, reachable: seq<bool>): SubmitReport
    requires |reachable| == |stuck|
  {
    if stuck == [] then EMPTY
    else
      var n := |stuck| - 1;
      var before := CrashReport(cfg, s, stuck[..n], reachable[..n]);
      match ResolvedFate(Decisions(cfg, s, stuck[..n], reachable[..n]), stuck[n], reachable[n])
      case Some(fate) => Count(before, fate)
      case None => before
  }

  lemma {:induction false} CrashReportAddsUp(cfg: Config, s: Sys, stuck: seq<nat>, reachable: seq<bool>)
    requires |reachable| == |stuck| && forall n :: 0 <= n < |stuck| ==> stuck[n] < |s.ws|
    ensures var report := CrashReport(cfg, s, stuck, reachable);
      && |Decisions(cfg, s, stuck, reachable).ws| == |s.ws|
      && report.adopted + report.frozen + report.resubmittable == |ResolveSteps(stuck, reachable)|
      && report.submitted == 0 && report.failed == 0 && report.skipped == 0
  {
    hide ResolveDecision, ResolvedFate, Resolved;
    if stuck != [] {
      var n := |stuck| - 1;
      CrashReportAddsUp(cfg, s, stuck[..n], reachable[..n]);
      OneDecided(cfg, Decisions(cfg, s, stuck[..n], reachable[..n]), stuck[n], reachable[n]);
    }
  }

  lemma OneDecided(cfg: Config, s: Sys, i: nat, reachable: bool)
    requires i < |s.ws|
    ensures |Resolved(cfg, s, i, reachable).ws| == |s.ws|
    ensures ResolvedFate(s, i, reachable).Some? <==> reachable
    ensures reachable ==> ResolvedFate(s, i, reachable).value in {Adopted, Frozen, Resubmittable}
  {
    hide ResolveDecision, FindMine, Unclaimed;
    DecisionLeavesOthers(cfg, s, i);
  }

  function ResolveSteps(stuck: seq<nat>, reachable: seq<bool>): seq<Step>
    requires |reachable| == |stuck|
  {
    if stuck == [] then []
    else
      var n := |stuck| - 1;
      ResolveSteps(stuck[..n], reachable[..n]) + if reachable[n] then [ResolveStuck(stuck[n])] else []
  }

  /** On rows that are stuck when the sweep selects them, and that it selects once, the sweep is
      a run of resolving steps. */
  lemma {:induction false} SweepIsARun(cfg: Config, s: Sys, stuck: seq<nat>, reachable: seq<bool>)
    requires |reachable| == |stuck|
    requires forall n :: 0 <= n < |stuck| ==> stuck[n] < |s.ws| && Stuck(s.ws[stuck[n]])
    requires forall m, n :: 0 <= m < n < |stuck| ==> stuck[m] != stuck[n]
    ensures var s' := Decisions(cfg, s, stuck, reachable);
      && s' == Run(cfg, s, ResolveSteps(stuck, reachable))
      && |s'.ws| == |s.ws| && forall j :: 0 <= j < |s.ws| && j !in stuck ==> s'.ws[j] == s.ws[j]
  {
    hide ResolveDecision, Next, Stuck;
    if stuck != [] {
      hide Run;
      var n := |stuck| - 1;
      SweepIsARun(cfg, s, stuck[..n], reachable[..n]);
      var s1 := Decisions(cfg, s, stuck[..n], reachable[..n]);
      assert stuck[n] !in stuck[..n];
      if reachable[n] {
        DecisionLeavesOthers(cfg, s1, stuck[n]);
        StuckIsResolved(cfg, s1, stuck[n]);
        var before := ResolveSteps(stuck[..n], reachable[..n]);
        RunOne(cfg, s1, ResolveStuck(stuck[n]));
        RunAppend(cfg, s, before, [ResolveStuck(stuck[n])]);
      } else {
        assert ResolveSteps(stuck, reachable) == ResolveSteps(stuck[..n], reachable[..n]);
      }
      forall j | 0 <= j < |s.ws| && j !in stuck ensures Decisions(cfg, s, stuck, reachable).ws[j] == s.ws[j] {
        assert j !in stuck[..n];
        assert j != stuck[n];
      }
    } else {
      assert ResolveSteps(stuck, reachable) == [];
    }
  }

  lemma StuckIsResolved(cfg: Config, s: Sys, i: nat)
    requires i < |s.ws| && Stuck(s.ws[i])
    ensures Next(cfg, s, ResolveStuck(i)) == ResolveDecision(cfg, s, i)
  {
    hide ResolveDecision, NextWithdrawal, NextDeposit;
  }
}
