/** The money path as one step system: the books, the withdrawal and deposit rows, the payout
    workers, and the payout rail they talk to. A step is one committed transaction; the payout
    worker's claim, create and record are separate steps with a crash possible between them. */
module MoneyPath {
  import opened Wrappers
  import opened Ledger
  import opened Fees
  import opened Withdrawals
  import D = Deposits
  import Amounts
  import Tron

  /** Where one worker is with the row it claimed. */
  datatype Phase = Claimed | Answered(payout: nat, quote: FeeQuote) | Done

  datatype Worker = Worker(row: nat, phase: Phase)

  /** A payout the rail created, with the withdrawal id it echoes, if it carries one. */
  datatype Payout = Payout(echo: Option<nat>, destination: string, amount: string, cancelled: bool)

  datatype Config = Config(assets: map<string, AssetRow>, chain: Tron.Chain)

  datatype Sys = Sys(book: Book, ws: seq<Withdrawal>, deposits: seq<D.Deposit>, payouts: seq<Payout>, workers: seq<Worker>)

  datatype Step =
    | Hold(req: Request, now: int, createdAt: int)
    | ApproveRow(i: nat, policy: FeePolicy, token: nat)
    | RejectRow(i: nat, actor: string)
    | AdminRelease(i: nat, actor: string, attestation: string)
    | ClaimRow(i: nat)
    | Abandon(k: nat, reason: string)
    | Create(k: nat, policy: FeePolicy, created: bool, answered: bool)
    | Record(k: nat)
    | Crash(k: nat)
    | ResolveStuck(i: nat)
    | PayoutEvent(i: nat, report: Report, actual: Option<int>)
    | ForeignPayout(destination: string, amount: string)
    | CancelPayout(p: nat)
    | OperatorBroadcast(i: nat, txid: string)
    | OperatorPoll(i: nat, height: int, required: int)
    | NewDeposit(user: string, asset: string, expected: Option<int>)
    | AttachInvoice(j: nat, seen: D.Seen, invoice: string)
    | ApplyInvoice(j: nat, snapshot: D.Snapshot, terms: D.Terms)
    | ResolveDeposit(j: nat, action: D.Resolution, payments: seq<D.Observed>, terms: D.Terms)
    | FailDeposit(j: nat, seen: D.Seen)

  // -- the rail ----------------------------------------------------------------------

  predicate LiveFor(p: Payout, i: nat) {
    !p.cancelled && p.echo == Some(i)
  }

  /** The last listed payout that carries this withdrawal's id and is not cancelled. */
  function FindMine(payouts: seq<Payout>, i: nat): (r: Option<nat>)
    ensures r.Some? ==> r.value < |payouts| && LiveFor(payouts[r.value], i)
    ensures r.None? <==> forall p :: 0 <= p < |payouts| ==> !LiveFor(payouts[p], i)
  {
    if payouts == [] then None
    else if LiveFor(payouts[|payouts| - 1], i) then Some(|payouts| - 1)
    else FindMine(payouts[..|payouts| - 1], i)
  }

  predicate Unclaimed(p: Payout, destination: string) {
    !p.cancelled && p.echo.None? && p.destination == destination
  }

  /** The amounts are rebuilt from what the rail accepted. */
  function QuoteFromPayout(amount: string, gross: int, decimals: nat): Result<FeeQuote, Error> {
    match if amount == "" then Success(gross) else Amounts.ToUnits(amount, decimals)
    case Failure(_) => Failure(AmountUnreadable)
    case Success(net) =>
      var fee := if gross - net > 0 then gross - net else 0;
      Success(FeeQuote(fee, net, fee))
  }

  // -- one step ------------------------------------------------------------------------

  function WithRow(s: Sys, i: nat, b: Book, w: Withdrawal): Sys
    requires i < |s.ws|
  {
    s.(book := b, ws := s.ws[i := w])
  }

  /** A committed outcome for row `i`; a failure rolls back. */
  function CommitRow(s: Sys, i: nat, r: Outcome): Sys
    requires i < |s.ws|
  {
    match r
    case Success((b, w)) => WithRow(s, i, b, w)
    case Failure(_) => s
  }

  function CommitDeposit(s: Sys, j: nat, r: D.Outcome): Sys
    requires j < |s.deposits|
  {
    match r
    case Success((b, d)) => s.(book := b, deposits := s.deposits[j := d])
    case Failure(_) => s
  }

  function ApprovedOutcome(b: Book, i: nat, w: Withdrawal, policy: FeePolicy, token: nat): Outcome {
    var approved :- Approve(w);
    if approved.backend != ManualTron then Success((b, approved))
    else match QuoteFor(policy, w.gross)
      // Nothing can send this for us, so approval is also the handover to an operator.
      case Success(q) => SubmitManual(b, i, approved, token, q)
      case Failure(_) => Failure(Dust)
  }

  predicate Working(s: Sys, k: nat) {
    k < |s.workers| && s.workers[k].row < |s.ws|
  }

  function Retire(s: Sys, k: nat): Sys
    requires k < |s.workers|
  {
    s.(workers := s.workers[k := s.workers[k].(phase := Done)])
  }

  function Decimals(cfg: Config, asset: string): nat {
    if asset in cfg.assets then cfg.assets[asset].decimals else 0
  }

  function AmountText(net: int, decimals: nat): string {
    match Amounts.FromUnits(net, decimals)
    case Success(text) => text
    case Failure(_) => ""
  }

  /** The rail call of worker `k`: it may create the payout or not, and may answer or not. */
  function Created(cfg: Config, s: Sys, k: nat, q: FeeQuote, created: bool, answered: bool): Sys
    requires Working(s, k)
  {
    var i := s.workers[k].row;
    var w := s.ws[i];
    if !created then Retire(s, k)
    else
      var payout := Payout(Some(i), w.destination, AmountText(q.net, Decimals(cfg, w.asset)), false);
      var s1 := s.(payouts := s.payouts + [payout]);
      if answered then s1.(workers := s1.workers[k := Worker(i, Answered(|s.payouts|, q))]) else Retire(s1, k)
  }

  predicate Stuck(w: Withdrawal) {
    w.status == Submitting && w.backend != ManualTron && w.backendRef.None?
  }

  /** What the sweep does with a row it selected as stuck; it does not look at the row's status again. */
  function ResolveDecision(cfg: Config, s: Sys, i: nat): Sys
    requires i < |s.ws|
  {
    var w := s.ws[i];
    match FindMine(s.payouts, i)
    case Some(p) =>
      (match QuoteFromPayout(s.payouts[p].amount, w.gross, Decimals(cfg, w.asset))
       case Success(q) => CommitRow(s, i, RecordSubmission(s.book, i, w, PayoutRef(p), q))
       case Failure(_) => s)
    case None =>
      if exists p :: 0 <= p < |s.payouts| && Unclaimed(s.payouts[p], w.destination) then s
      else WithRow(s, i, s.book, w.(status := Approved))
  }

  predicate Correlated(w: Withdrawal, i: nat, report: Report) {
    w.backend != ManualTron && (w.backendRef == Some(PayoutRef(report.payout)) || report.echo == Some(i))
  }

  predicate InvoiceFree(deposits: seq<D.Deposit>, j: nat, invoice: string) {
    forall k :: 0 <= k < |deposits| && k != j ==> deposits[k].invoice != Some(invoice)
  }

  function NeverSentProof(reason: string): string {
    reason + ". The withdrawal was refused before the backend was called"
  }

  function NextWithdrawal(cfg: Config, s: Sys, step: Step): Sys {
    match step
    case Hold(req, now, createdAt) =>
      (match PlaceHold(s.book, s.ws, cfg.assets, req, now, createdAt)
       case Success((b, w)) => s.(book := b, ws := s.ws + [w])
       case Failure(_) => s)
    case ApproveRow(i, policy, token) =>
      if i < |s.ws| then CommitRow(s, i, ApprovedOutcome(s.book, i, s.ws[i], policy, token)) else s
    case RejectRow(i, actor) =>
      if i < |s.ws| then CommitRow(s, i, Reject(s.book, i, s.ws[i], actor)) else s
    case AdminRelease(i, actor, attestation) =>
      if i < |s.ws| then CommitRow(s, i, ReleaseHold(s.book, i, s.ws[i], actor, Some(attestation))) else s
    case PayoutEvent(i, report, actual) =>
      if i < |s.ws| && Correlated(s.ws[i], i, report)
      then CommitRow(s, i, ApplyPayoutState(s.book, s.ws, i, s.ws[i], report, actual)) else s
    case OperatorBroadcast(i, txid) =>
      if i < |s.ws| then
        (match MarkBroadcast(s.ws, i, s.ws[i], cfg.chain, txid)
         case Success(w) => WithRow(s, i, s.book, w)
         case Failure(_) => s)
      else s
    case OperatorPoll(i, height, required) =>
      if i < |s.ws| && s.ws[i].backend == ManualTron
      then CommitRow(s, i, PollManual(s.book, i, s.ws[i], cfg.chain, height, required)) else s
    case _ => s
  }

  function NextWorker(cfg: Config, s: Sys, step: Step): Sys {
    match step
    case ClaimRow(i) =>
      if i < |s.ws| && Claim(s.ws[i]).Some?
      then WithRow(s, i, s.book, Claim(s.ws[i]).value).(workers := s.workers + [Worker(i, Claimed)]) else s
    case Abandon(k, reason) =>
      if Working(s, k) && s.workers[k].phase.Claimed? then
        var i := s.workers[k].row;
        Retire(CommitRow(s, i, ReleaseHold(s.book, i, s.ws[i], ACTOR_NEVER_SUBMITTED, Some(NeverSentProof(reason)))), k)
      else s
    case Create(k, policy, created, answered) =>
      if Working(s, k) && s.workers[k].phase.Claimed? then
        (match QuoteFor(policy, s.ws[s.workers[k].row].gross)
         case Success(q) => Created(cfg, s, k, q, created, answered)
         case Failure(_) => s)
      else s
    case Record(k) =>
      if Working(s, k) && s.workers[k].phase.Answered? then
        var Worker(i, Answered(p, q)) := s.workers[k];
        Retire(CommitRow(s, i, RecordSubmission(s.book, i, s.ws[i], PayoutRef(p), q)), k)
      else s
    case Crash(k) => if k < |s.workers| then Retire(s, k) else s
    case ResolveStuck(i) => if i < |s.ws| && Stuck(s.ws[i]) then ResolveDecision(cfg, s, i) else s
    case ForeignPayout(destination, amount) => s.(payouts := s.payouts + [Payout(None, destination, amount, false)])
    case CancelPayout(p) =>
      if p < |s.payouts| then s.(payouts := s.payouts[p := s.payouts[p].(cancelled := true)]) else s
    case _ => s
  }

  function NextDeposit(s: Sys, step: Step): Sys {
    match step
    case NewDeposit(user, asset, expected) =>
      s.(deposits := s.deposits + [D.Deposit(user, asset, None, expected, 0, D.Creating, [])])
    case AttachInvoice(j, seen, invoice) =>
      if j < |s.deposits| && seen.invoice.None? && InvoiceFree(s.deposits, j, invoice)
      then s.(deposits := s.deposits[j := D.AttachFrom(seen, s.deposits[j], invoice)]) else s
    case ApplyInvoice(j, snapshot, terms) =>
      if j < |s.deposits|
      then CommitDeposit(s, j, D.ApplyInvoiceState(s.book, s.deposits[j], snapshot, terms,
                                                   InvoiceFree(s.deposits, j, snapshot.invoice))) else s
    case ResolveDeposit(j, action, payments, terms) =>
      if j < |s.deposits| then CommitDeposit(s, j, D.ResolveReview(s.book, s.deposits[j], action, payments, terms)) else s
    case FailDeposit(j, seen) =>
      if j < |s.deposits| && seen.invoice.None? then
        (match D.MarkFailed(seen, s.deposits[j])
         case Success(d) => s.(deposits := s.deposits[j := d])
         case Failure(_) => s)
      else s
    case _ => s
  }

  predicate IsDepositStep(step: Step) {
    step.NewDeposit? || step.AttachInvoice? || step.ApplyInvoice? || step.ResolveDeposit? || step.FailDeposit?
  }

  predicate IsWorkerStep(step: Step) {
    step.ClaimRow? || step.Abandon? || step.Create? || step.Record? || step.Crash? || step.ResolveStuck?
    || step.ForeignPayout? || step.CancelPayout?
  }

  function Next(cfg: Config, s: Sys, step: Step): Sys {
    if IsDepositStep(step) then NextDeposit(s, step)
    else if IsWorkerStep(step) then NextWorker(cfg, s, step)
    else NextWithdrawal(cfg, s, step)
  }

  // -- what the code leaves to its environment ------------------------------------------------

  predicate IsLive(wk: Worker) {
    !wk.phase.Done?
  }

  predicate Attempted(s: Sys, i: nat) {
    exists k :: 0 <= k < |s.workers| && IsLive(s.workers[k]) && s.workers[k].row == i
  }

  /** A1: nothing releases, cancels or resolves a row while a worker is between claiming it and
      recording it. A3: no completed payout is reported for a row already cancelled or released.
      A4: a deposit's invoice and status are still what its handler read when the handler, back
      from the backend, writes them. */
  predicate Admissible(s: Sys, step: Step) {
    match step
    case AdminRelease(i, _, _) => !Attempted(s, i)
    case ResolveStuck(i) => !Attempted(s, i)
    case PayoutEvent(i, report, _) =>
      && (report.state == Cancelled ==> !Attempted(s, i))
      && (report.state == Completed && i < |s.ws| ==> !s.ws[i].status.Failed? && !s.ws[i].status.Refunded?)
    case AttachInvoice(j, seen, _) => j < |s.deposits| ==> seen == D.SeenOf(s.deposits[j])
    case FailDeposit(j, seen) => j < |s.deposits| ==> seen == D.SeenOf(s.deposits[j])
    case _ => true
  }

  /** Users pay the network fee, and no rail charges more than the user was charged. */
  predicate Deducting(s: Sys, step: Step) {
    match step
    case ApproveRow(_, policy, _) => Deducts(policy)
    case Create(_, policy, _, _) => Deducts(policy)
    case PayoutEvent(i, _, actual) => i < |s.ws| && actual.Some? ==> actual.value <= SettleFee(s.ws[i])
    case _ => true
  }

  /** Seeded accounts and nothing else. */
  ghost predicate IsInitial(s: Sys) {
    Consistent(s.book) && s.book.entries == [] && s.ws == [] && s.deposits == [] && s.payouts == [] && s.workers == []
  }

  /** One admissible step of a history. */
  ghost predicate StepAt(cfg: Config, states: seq<Sys>, steps: seq<Step>, n: nat)
    requires |states| == |steps| + 1 && n < |steps|
  {
    Admissible(states[n], steps[n]) && states[n + 1] == Next(cfg, states[n], steps[n])
  }

  /** A history of admissible steps, in any number and order, from seeded accounts. */
  ghost predicate History(cfg: Config, states: seq<Sys>, steps: seq<Step>) {
    && |states| == |steps| + 1 && IsInitial(states[0])
    && forall n :: 0 <= n < |steps| ==> StepAt(cfg, states, steps, n)
  }

  ghost predicate Reachable(cfg: Config, s: Sys) {
    exists states, steps :: History(cfg, states, steps) && states[|steps|] == s
  }

  ghost predicate DeductsAt(states: seq<Sys>, steps: seq<Step>, n: nat)
    requires |states| == |steps| + 1 && n < |steps|
  {
    Deducting(states[n], steps[n])
  }

  /** A history in which users pay the network fee throughout. */
  ghost predicate DeductingHistory(cfg: Config, states: seq<Sys>, steps: seq<Step>) {
    History(cfg, states, steps) && forall n :: 0 <= n < |steps| ==> DeductsAt(states, steps, n)
  }

  ghost predicate ReachableDeducting(cfg: Config, s: Sys) {
    exists states, steps :: DeductingHistory(cfg, states, steps) && states[|steps|] == s
  }
}
