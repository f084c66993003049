/** The two create handlers: a withdrawal is claimed, held and answered in one commit; a deposit
    is claimed and inserted in a first commit and answered in a second. */
module Endpoints {
  import opened Wrappers
  import opened Ledger
  import opened Idempotency
  import W = Withdrawals
  import D = Deposits
  import M = MoneyPath
  import WS = WithdrawalSession
  import DS = DepositSession
  import E = ExactlyOnce

  datatype ApiError = BadKey(error: IdempotencyError) | Refused(status: int) | NotHeld(fault: W.Error) | Rail(status: int)

  const CREATED := 201

  // -- the transactions ------------------------------------------------------------------------

  /** `create_withdrawal` on the key table, the books and the rows. `refusal` is what the checks
      before the hold answered; `body` is the serializer. */
  function Held(t: Table, b: Book, ws: seq<W.Withdrawal>, key: string, hash: string, assets: map<string, W.AssetRow>, req: W.Request,
                refusal: Option<int>, body: W.Withdrawal -> string, now: int, createdAt: int, stale: nat)
    : (Table, Book, seq<W.Withdrawal>, Result<Response, ApiError>)
  {
    var k := Key(key, E.WITHDRAWALS);
    match Begin(t, k, hash, now, stale)
    case Failure(err) => (t, b, ws, Failure(BadKey(err)))
    case Success((_, Replayed(response, _))) => (t, b, ws, Success(response))
    case Success((claimed, Owned(_, _))) =>
      if refusal.Some? then (t, b, ws, Failure(Refused(refusal.value)))
      else match W.PlaceHold(b, ws, assets, req, now, createdAt)
        case Failure(err) => (t, b, ws, Failure(NotHeld(err)))
        case Success((b', w)) =>
          var response := Response(CREATED, body(w));
          (Complete(RecordResource(claimed, k, |ws|, now), k, response, now), b', ws + [w], Success(response))
  }

  /** Where a deposit request stands after its first transaction, with its copy of the row. */
  datatype Ticket = Replay(response: Response) | Go(deposit: nat, reclaimed: bool, copy: D.Deposit)

  /** What the backend did about the invoice. */
  datatype Invoicing = Invoice(id: string) | Rejection(status: int) | Ambiguous(status: int)

  /** The first commit of `create_deposit`: the claim and the row become durable together, or a
      takeover picks up the row the record names. */
  function Opened(t: Table, ds: seq<D.Deposit>, key: string, hash: string, user: string, asset: string, expected: Option<int>,
                  refusal: Option<int>, now: int, stale: nat)
    : (r: (Table, seq<D.Deposit>, Result<Ticket, ApiError>))
    ensures r.2.Success? && r.2.value.Go? ==> r.2.value.deposit < |r.1| && r.2.value.copy == r.1[r.2.value.deposit]
  {
    var k := Key(key, E.DEPOSITS);
    match Begin(t, k, hash, now, stale)
    case Failure(err) => (t, ds, Failure(BadKey(err)))
    case Success((_, Replayed(response, _))) => (t, ds, Success(Replay(response)))
    case Success((claimed, Owned(reclaimed, owned))) =>
      if refusal.Some? then (t, ds, Failure(Refused(refusal.value)))
      else if reclaimed && owned.Some? && owned.value < |ds| then (claimed, ds, Success(Go(owned.value, true, ds[owned.value])))
      else
        var d := D.Deposit(user, asset, None, expected, 0, D.Creating, []);
        (RecordResource(claimed, k, |ds|, now), ds + [d], Success(Go(|ds|, reclaimed, d)))
  }

  /** The second commit, on the copy the handler kept: the invoice and the stored response, or a
      definite failure with the record left in progress, or nothing at all. */
  function Closed(t: Table, ds: seq<D.Deposit>, key: string, j: nat, copy: D.Deposit, rail: Invoicing, body: D.Deposit -> string, now: int)
    : (Table, seq<D.Deposit>, Result<Response, ApiError>)
    requires j < |ds|
  {
    var k := Key(key, E.DEPOSITS);
    if copy.invoice.Some? then
      var response := Response(CREATED, body(copy));
      (Complete(t, k, response, now), ds, Success(response))
    else match rail
      case Invoice(id) =>
        // The unique index on the invoice id.
        if !M.InvoiceFree(ds, j, id) then (t, ds, Failure(Refused(500)))
        else
          var response := Response(CREATED, body(D.Attach(copy, id)));
          (Complete(t, k, response, now), ds[j := D.AttachFrom(D.SeenOf(copy), ds[j], id)], Success(response))
      case Rejection(status) =>
        (match D.MarkFailed(D.SeenOf(copy), ds[j])
         case Success(d) => (t, ds[j := d], Failure(Rail(status)))
         case Failure(_) => (t, ds, Failure(Refused(500))))
      case Ambiguous(status) => (t, ds, Failure(Rail(status)))
  }

  // -- they are the protocol's steps ---------------------------------------------------------------

  /** A withdrawal request is one step of the idempotency protocol: a row, and with it a hold, is
      added exactly when the protocol creates one, under the id the record names. */
  lemma HeldIsAStep(w: E.World, b: Book, ws: seq<W.Withdrawal>, key: string, hash: string, assets: map<string, W.AssetRow>, req: W.Request,
                    refusal: Option<int>, body: W.Withdrawal -> string, createdAt: int, stale: nat)
    requires |w.withdrawals| == |ws|
    ensures var (t, b', ws', r) := Held(w.table, b, ws, key, hash, assets, req, refusal, body, w.clock, createdAt, stale);
      var w' := E.Next(w, E.PostWithdrawal(key, hash, if r.Success? then Some(r.value) else None), stale);
      && w'.table == t && |w'.withdrawals| == |ws'| && w'.deposits == w.deposits
      && ws <= ws' && (b' != b || |ws'| > |ws| ==> |w'.withdrawals| == |w.withdrawals| + 1)
  {
    hide W.PlaceHold, ValidKey;
  }

  /** The first commit starts an attempt on the row it names. */
  lemma OpenedIsAStep(w: E.World, ds: seq<D.Deposit>, key: string, hash: string, user: string, asset: string, expected: Option<int>,
                      refusal: Option<int>, stale: nat)
    requires |w.deposits| == |ds|
    ensures var (t, ds', r) := Opened(w.table, ds, key, hash, user, asset, expected, refusal, w.clock, stale);
      var w' := E.Next(w, E.StartDeposit(key, hash, refusal.None?), stale);
      && w'.table == t && |w'.deposits| == |ds'| && w'.withdrawals == w.withdrawals && ds <= ds'
      && (r.Success? && r.value.Go? ==>
            w'.attempts == w.attempts + [E.Attempt(Key(key, E.DEPOSITS), E.EraOf(w, Key(key, E.DEPOSITS)), r.value.deposit, true)])
  {
    hide ValidKey;
  }

  /** The second commit finishes that attempt, or gives it up without touching the key. */
  lemma ClosedIsAStep(w: E.World, a: nat, ds: seq<D.Deposit>, key: string, copy: D.Deposit, rail: Invoicing, body: D.Deposit -> string, stale: nat)
    requires E.Working(w, a) && w.attempts[a].key == Key(key, E.DEPOSITS) && |w.deposits| == |ds| && w.attempts[a].resource < |ds|
    ensures var (t, ds', r) := Closed(w.table, ds, key, w.attempts[a].resource, copy, rail, body, w.clock);
      var w' := E.Next(w, if r.Success? then E.FinishDeposit(a, r.value) else E.LoseAttempt(a), stale);
      w'.table == t && |w'.deposits| == |ds'| && w'.withdrawals == w.withdrawals && !E.Working(w', a)
  {
    hide M.InvoiceFree;
  }

  // -- answers that do not lead to a credit ----------------------------------------------------------

  /** A definite rejection leaves the record in progress, so the next attempt after the stale
      window is answered 201 with an invoice, on a deposit that no view of that invoice moves. */
  lemma RejectedThenAnswered(t: Table, ds: seq<D.Deposit>, key: string, hash: string, user: string, asset: string, invoice: string,
                             body: D.Deposit -> string, now: int, stale: nat)
    requires ValidKey(key) && Key(key, E.DEPOSITS) !in t && M.InvoiceFree(ds, |ds|, invoice)
    ensures var j := |ds|;
      var later := now + stale + 1;
      var (t1, ds1, r1) := Opened(t, ds, key, hash, user, asset, None, None, now, stale);
      && r1.Success? && r1.value.Go? && r1.value.deposit == j
      && var (t2, ds2, r2) := Closed(t1, ds1, key, j, r1.value.copy, Rejection(422), body, now);
      var (t3, ds3, r3) := Opened(t2, ds2, key, hash, user, asset, None, None, later, stale);
      && r3.Success? && r3.value.Go? && r3.value.deposit == j && j < |ds3|
      && var (t4, ds4, r4) := Closed(t3, ds3, key, j, r3.value.copy, Invoice(invoice), body, later);
      && r4.Success? && r4.value.status == CREATED && ds4[j].invoice == Some(invoice)
      && forall b, s: D.Snapshot, terms, free | s.invoice == invoice :: D.ApplyInvoiceState(b, ds4[j], s, terms, free) == Success((b, ds4[j]))
  {
    hide ValidKey;
  }

  /** A slow original closes after its takeover: the invoice the client was first answered with
      is replaced by its own, and a status reached meanwhile goes back to `pending`. */
  lemma SlowOriginalReplacesInvoice(t: Table, ds: seq<D.Deposit>, key: string, hash: string, user: string, asset: string, first: string,
                                    second: string, reached: D.Deposit, body: D.Deposit -> string, now: int, stale: nat)
    requires ValidKey(key) && Key(key, E.DEPOSITS) !in t && M.InvoiceFree(ds, |ds|, first) && M.InvoiceFree(ds, |ds|, second)
    requires reached.invoice == Some(first)
    ensures var j := |ds|;
      var later := now + stale + 1;
      var (t1, ds1, r1) := Opened(t, ds, key, hash, user, asset, None, None, now, stale);
      && r1.Success? && r1.value.Go? && r1.value.deposit == j
      && var (t2, ds2, r2) := Opened(t1, ds1, key, hash, user, asset, None, None, later, stale);
      && r2.Success? && r2.value.Go? && r2.value.deposit == j && j < |ds2|
      && var (t3, ds3, r3) := Closed(t2, ds2, key, j, r2.value.copy, Invoice(first), body, later);
      && r3.Success? && ds3[j].invoice == Some(first)
      // Meanwhile webhooks take the deposit to `reached`.
      && var (t4, ds4, r4) := Closed(t3, ds3[j := reached], key, j, r1.value.copy, Invoice(second), body, later);
      r4.Success? && ds4[j] == reached.(invoice := Some(second), status := D.Pending)
  {
    hide ValidKey;
  }

  // -- the handlers ----------------------------------------------------------------------------------

  class WithdrawalApi {
    const keys: KeyTable
    const session: WS.Session

    constructor (keys: KeyTable, session: WS.Session)
      ensures this.keys == keys && this.session == session
    {
      this.keys, this.session := keys, session;
    }

    method CreateWithdrawal(key: string, hash: string, assets: map<string, W.AssetRow>, req: W.Request, refusal: Option<int>,
                            body: W.Withdrawal -> string, now: int, createdAt: int, stale: nat)
      returns (r: Result<Response, ApiError>)
      modifies keys, session, session.ledger
      ensures (keys.records, session.Books(), session.rows, r)
           == Held(old(keys.records), old(session.Books()), old(session.rows), key, hash, assets, req, refusal, body, now, createdAt, stale)
    {
      hide W.PlaceHold, ValidKey;
      var k, before := Key(key, E.WITHDRAWALS), keys.records;
      var start := keys.BeginAlone(k, hash, now, stale);
      if start.Failure? {
        return Failure(BadKey(start.error));
      }
      if start.value.Replayed? {
        return Success(start.value.response);
      }
      if refusal.Some? {
        keys.records := before;
        return Failure(Refused(refusal.value));
      }
      var outcome := session.PlaceHold(assets, req, now, createdAt);
      if outcome.Failure? {
        keys.records := before;
        return Failure(NotHeld(outcome.error));
      }
      var response := Response(CREATED, body(session.rows[outcome.value]));
      keys.AttachResource(k, outcome.value, now);
      keys.CompleteRequest(k, response, now);
      return Success(response);
    }
  }

  class DepositApi {
    const keys: KeyTable
    const session: DS.Session

    constructor (keys: KeyTable, session: DS.Session)
      ensures this.keys == keys && this.session == session
    {
      this.keys, this.session := keys, session;
    }

    method OpenDeposit(key: string, hash: string, user: string, asset: string, expected: Option<int>, refusal: Option<int>,
                       now: int, stale: nat)
      returns (r: Result<Ticket, ApiError>)
      modifies keys, session`deposits
      ensures (keys.records, session.deposits, r)
           == Opened(old(keys.records), old(session.deposits), key, hash, user, asset, expected, refusal, now, stale)
    {
      hide ValidKey;
      var k, before := Key(key, E.DEPOSITS), keys.records;
      var start := keys.BeginAlone(k, hash, now, stale);
      if start.Failure? {
        return Failure(BadKey(start.error));
      }
      if start.value.Replayed? {
        return Success(Replay(start.value.response));
      }
      if refusal.Some? {
        keys.records := before;
        return Failure(Refused(refusal.value));
      }
      if start.value.reclaimed && start.value.owned.Some? && start.value.owned.value < |session.deposits| {
        return Success(Go(start.value.owned.value, true, session.deposits[start.value.owned.value]));
      }
      var j := |session.deposits|;
      session.deposits := session.deposits + [D.Deposit(user, asset, None, expected, 0, D.Creating, [])];
      keys.AttachResource(k, j, now);
      return Success(Go(j, start.value.reclaimed, session.deposits[j]));
    }

    method CloseDeposit(key: string, j: nat, copy: D.Deposit, rail: Invoicing, body: D.Deposit -> string, now: int)
      returns (r: Result<Response, ApiError>)
      requires j < |session.deposits|
      modifies keys, session`deposits
      ensures (keys.records, session.deposits, r) == Closed(old(keys.records), old(session.deposits), key, j, copy, rail, body, now)
    {
      hide M.InvoiceFree;
      var shown := copy;
      if copy.invoice.None? {
        match rail {
          case Invoice(id) =>
            var free := session.InvoiceIsFree(j, id);
            if !free {
              return Failure(Refused(500));
            }
            session.AttachInvoice(j, D.SeenOf(copy), id);
            shown := D.Attach(copy, id);
          case Rejection(status) =>
            var marked := session.MarkFailed(j, D.SeenOf(copy));
            return Failure(if marked.Success? then Rail(status) else Refused(500));
          case Ambiguous(status) =>
            return Failure(Rail(status));
        }
      }
      var response := Response(CREATED, body(shown));
      keys.CompleteRequest(Key(key, E.DEPOSITS), response, now);
      return Success(response);
    }
  }
}
