/** The deposit service over mutable rows: one deposit is locked, brought in line with a
    snapshot payment by payment, and committed or rolled back as a whole. */
module DepositSession {
  import opened Wrappers
  import opened Ledger
  import D = Deposits
  import opened Deposits
  import M = MoneyPath
  import W = Withdrawals
  import Amounts

  /** A commit leaves the new books and the new row; a raise leaves everything as it was. */
  ghost predicate Ran(spec: Outcome, b: Book, ds: seq<Deposit>, j: nat, r: Result<(), DepositError>, b': Book, ds': seq<Deposit>)
    requires j < |ds|
  {
    match spec
    case Success((book, d)) => r == Success(()) && b' == book && ds' == ds[j := d]
    case Failure(err) => r == Failure(err) && b' == b && ds' == ds
  }

  class Session {
    const ledger: LedgerStore
    var deposits: seq<Deposit>

    constructor (ledger: LedgerStore)
      ensures this.ledger == ledger && deposits == []
    {
      this.ledger := ledger;
      deposits := [];
    }

    function Books(): Book
      reads ledger
    {
      ledger.View()
    }

    method RollBack(b: Book, ds: seq<Deposit>)
      modifies this, ledger
      ensures Books() == b && deposits == ds
    {
      ledger.Restore(b);
      deposits := ds;
    }

    method InvoiceIsFree(j: nat, invoice: string) returns (free: bool)
      ensures free == M.InvoiceFree(deposits, j, invoice)
    {
      for k := 0 to |deposits|
        invariant forall l :: 0 <= l < k && l != j ==> deposits[l].invoice != Some(invoice)
      {
        if k != j && deposits[k].invoice == Some(invoice) {
          return false;
        }
      }
      return true;
    }

    method FindPayment(j: nat, payment: string) returns (k: Option<nat>)
      requires j < |deposits|
      ensures k == FindRow(deposits[j].rows, payment)
    {
      var rows := deposits[j].rows;
      var n := |rows|;
      assert rows[..n] == rows;
      while n > 0
        invariant 0 <= n <= |rows|
        invariant FindRow(rows, payment) == FindRow(rows[..n], payment)
      {
        n := n - 1;
        assert rows[..n + 1][..n] == rows[..n];
        if rows[n].payment == payment {
          return Some(n);
        }
      }
      return None;
    }

    /** Insert-or-ignore, then read the row back. */
    method UpsertPayment(j: nat, payment: string, units: int, late: bool) returns (r: Result<nat, DepositError>)
      requires j < |deposits|
      modifies this
      ensures match Upsert(old(deposits[j]), payment, units, late)
        case Success((d, k)) => r == Success(k) && deposits == old(deposits)[j := d]
        case Failure(err) => r == Failure(err) && deposits == old(deposits)
    {
      if units <= 0 {
        return Failure(AmountNotPositive);
      }
      var existing := FindPayment(j, payment);
      if existing.Some? {
        assert deposits[j := deposits[j]] == deposits;
        return Success(existing.value);
      }
      var k := |deposits[j].rows|;
      deposits := deposits[j := deposits[j].(rows := deposits[j].rows + [PaymentRow(payment, units, late, None, None)])];
      return Success(k);
    }

    /** Posts the credit, or adopts the entry that is already there. On an error the caller
        rolls back. */
    method CreditPayment(j: nat, k: nat, invoice: string, actor: string) returns (r: Result<(), DepositError>)
      requires j < |deposits| && k < |deposits[j].rows|
      modifies this, ledger
      ensures match Credit(old(Books()), old(deposits[j]), k, invoice, actor)
        case Success((b, d)) => r == Success(()) && Books() == b && deposits == old(deposits)[j := d]
        case Failure(err) => r == Failure(err) && deposits == old(deposits)
    {
      hide Post;
      var d := deposits[j];
      var row := d.rows[k];
      var hot := ledger.LookUpAccount(W.SystemKey(d.asset, HotWallet));
      if hot.None? {
        return Failure(CreditRefused(AccountNotFound));
      }
      var available := ledger.GetOrCreateAccount(W.AvailableKey(d.asset, d.user));
      var _ := ledger.GetOrCreateAccount(W.HoldKey(d.asset, d.user));
      var e := CreditEntry(d, row, invoice, hot.value, available.value);
      var entry := ledger.PostEntry(e.kind, e.asset, e.ref, e.postings, None);
      var id;
      if entry.Success? {
        id := entry.value;
      } else if entry.error.AlreadyPosted? {
        id := entry.error.entry;
      } else {
        return Failure(CreditRefused(entry.error));
      }
      deposits := deposits[j := d.(rows := d.rows[k := row.(entry := Some(id), resolvedBy := Some(actor))],
                                   credited := d.credited + row.amount)];
      return Success(());
    }

    method RecordPayment(j: nat, p: Parsed, invoice: string, creditable: bool, late: bool, actor: string)
      returns (r: Result<(), DepositError>)
      requires j < |deposits|
      modifies this, ledger
      ensures match RecordOne(old(Books()), old(deposits[j]), p, invoice, creditable, late, actor)
        case Success((b, d)) => r == Success(()) && Books() == b && deposits == old(deposits)[j := d]
        case Failure(err) => r == Failure(err) && |deposits| == |old(deposits)|
    {
      hide Credit, Upsert;
      var k := UpsertPayment(j, p.payment, p.units, late);
      if k.Failure? {
        return Failure(k.error);
      }
      UpsertFinds(old(deposits[j]), p, late);
      if creditable && p.settled && deposits[j].rows[k.value].entry.None? {
        r := CreditPayment(j, k.value, invoice, actor);
        return;
      }
      return Success(());
    }

    static lemma UpsertFinds(d: Deposit, p: Parsed, late: bool)
      ensures var r := Upsert(d, p.payment, p.units, late); r.Success? ==> r.value.1 < |r.value.0.rows|
    {
    }

    /** Reads the snapshot: the payments that count, and what of them parses. */
    static method Read(s: Snapshot, decimals: nat) returns (parsed: seq<Parsed>, any: bool, unparseable: bool)
      ensures parsed == Readable(Considered(s.payments), decimals)
      ensures any <==> Considered(s.payments) != []
      ensures unparseable <==> Unparseable(Considered(s.payments), decimals)
    {
      hide Amounts.ToUnits;
      var payments := [];
      for n := 0 to |s.payments|
        invariant payments == Considered(s.payments[..n])
      {
        assert s.payments[..n + 1][..n] == s.payments[..n];
        if s.payments[n].state != PaymentInvalid {
          payments := payments + [s.payments[n]];
        }
      }
      assert s.payments[..|s.payments|] == s.payments;
      parsed, any, unparseable := [], payments != [], false;
      for n := 0 to |payments|
        invariant parsed == Readable(payments[..n], decimals)
        invariant unparseable <==> Unparseable(payments[..n], decimals)
      {
        assert payments[..n + 1][..n] == payments[..n];
        assert forall k :: 0 <= k < n ==> payments[..n + 1][k] == payments[..n][k];
        var units := Amounts.ToUnits(payments[n].value, decimals);
        if units.Success? {
          parsed := parsed + [Parsed(payments[n].payment, units.value, payments[n].state == PaymentSettled)];
        } else {
          assert Amounts.ToUnits(payments[..n + 1][n].value, decimals).Failure?;
          unparseable := true;
        }
      }
      assert payments[..|payments|] == payments;
    }

    /** Records every parsed payment, crediting where that is due. */
    method RecordPayments(j: nat, parsed: seq<Parsed>, invoice: string, creditable: bool, late: bool, actor: string)
      returns (r: Result<(), DepositError>)
      requires j < |deposits|
      modifies this, ledger
      ensures match RecordAll(old(Books()), old(deposits[j]), parsed, invoice, creditable, late, actor)
        case Success((b, d)) => r == Success(()) && Books() == b && deposits == old(deposits)[j := d]
        case Failure(err) => r == Failure(err)
    {
      hide RecordOne;
      ghost var b0, d0 := Books(), deposits[j];
      assert deposits[j := d0] == deposits;
      for n := 0 to |parsed|
        invariant j < |deposits|
        invariant RecordAll(b0, d0, parsed[..n], invoice, creditable, late, actor) == Success((Books(), deposits[j]))
        invariant deposits == old(deposits)[j := deposits[j]]
      {
        assert parsed[..n + 1][..n] == parsed[..n];
        r := RecordPayment(j, parsed[n], invoice, creditable, late, actor);
        if r.Failure? {
          FailureStays(b0, d0, parsed, n + 1, invoice, creditable, late, actor);
          return;
        }
      }
      assert parsed[..|parsed|] == parsed;
      return Success(());
    }

    static lemma {:induction false} FailureStays(b: Book, d: Deposit, parsed: seq<Parsed>, n: nat, invoice: string,
                                                 creditable: bool, late: bool, actor: string)
      requires n <= |parsed| && RecordAll(b, d, parsed[..n], invoice, creditable, late, actor).Failure?
      ensures RecordAll(b, d, parsed, invoice, creditable, late, actor)
           == RecordAll(b, d, parsed[..n], invoice, creditable, late, actor)
      decreases |parsed|
    {
      hide RecordOne;
      if n < |parsed| {
        var m := |parsed| - 1;
        assert parsed[..m][..n] == parsed[..n];
        FailureStays(b, d, parsed[..m], n, invoice, creditable, late, actor);
      } else {
        assert parsed[..n] == parsed;
      }
    }

    method ApplyInvoiceState(j: nat, s: Snapshot, terms: Terms) returns (r: Result<(), DepositError>)
      requires j < |deposits|
      modifies this, ledger
      ensures Ran(D.ApplyInvoiceState(old(Books()), old(deposits[j]), s, terms, M.InvoiceFree(old(deposits), j, s.invoice)),
                  old(Books()), old(deposits), j, r, Books(), deposits)
    {
      hide RecordAll, BreachesPooledTolerance, Readable, Considered, Unparseable, MoveStatus, InvoiceTarget, M.InvoiceFree;
      var before, kept := ledger.View(), deposits;
      assert deposits[j := deposits[j]] == deposits;
      if deposits[j].invoice.Some? && deposits[j].invoice.value != s.invoice {
        return Failure(InvoiceMismatch);
      }
      if Terminal(deposits[j].status) || s.status == Unrecognised {
        return Success(());
      }
      if deposits[j].invoice.None? {
        var free := InvoiceIsFree(j, s.invoice);
        if !free {
          return Failure(InvoiceTaken);
        }
        AttachInvoice(j, SeenOf(deposits[j]), s.invoice);
      }
      var parsed, any, unparseable := Read(s, terms.decimals);
      var target := InvoiceTarget(s, any);
      if unparseable {
        target := Review;
      }
      if target == Settled && BreachesPooledTolerance(deposits[j].expected, terms, parsed) {
        target := Review;
      }
      var creditable := target == Settled && deposits[j].status != Review && !Terminal(deposits[j].status);
      r := RecordPayments(j, parsed, s.invoice, creditable, s.additional == PaidLate, terms.actor);
      if r.Failure? {
        RollBack(before, kept);
        return;
      }
      Settle(j, target);
    }

    /** Moves the status if the snapshot's target is allowed from here. */
    method Settle(j: nat, wanted: DepositStatus)
      requires j < |deposits|
      modifies this
      ensures deposits == old(deposits)[j := MoveStatus(old(deposits[j]), wanted)]
    {
      var target := wanted;
      if target == Review && deposits[j].status == Settled {
        var uncredited := AnyUncredited(j);
        if !uncredited {
          target := Settled;
        }
      }
      if target in AllowedTargets(deposits[j].status) {
        deposits := deposits[j := deposits[j].(status := target)];
      } else {
        assert deposits[j := deposits[j]] == deposits;
      }
    }

    method AnyUncredited(j: nat) returns (any: bool)
      requires j < |deposits|
      ensures any <==> !AllCredited(deposits[j])
    {
      for k := 0 to |deposits[j].rows|
        invariant forall l :: 0 <= l < k ==> deposits[j].rows[l].entry.Some?
      {
        if deposits[j].rows[k].entry.None? {
          return true;
        }
      }
      return false;
    }

    /** Writes the columns that changed in the handler's copy, without reading the row again. */
    method AttachInvoice(j: nat, seen: Seen, invoice: string)
      requires j < |deposits|
      modifies this`deposits
      ensures deposits == old(deposits)[j := AttachFrom(seen, old(deposits[j]), invoice)]
    {
      deposits := deposits[j := deposits[j].(invoice := Some(invoice))];
      if seen.status == Creating {
        deposits := deposits[j := deposits[j].(status := Pending)];
      }
    }

    method MarkFailed(j: nat, seen: Seen) returns (r: Result<(), DepositError>)
      requires j < |deposits|
      modifies this`deposits
      ensures match D.MarkFailed(seen, old(deposits[j]))
        case Success(d) => r == Success(()) && deposits == old(deposits)[j := d]
        case Failure(err) => r == Failure(err) && deposits == old(deposits)
    {
      if seen.status != Creating {
        return Failure(IllegalTransition);
      }
      deposits := deposits[j := deposits[j].(status := Failed)];
      return Success(());
    }

    /** The backend's current view of one payment, by id. */
    static method LookUpObserved(payments: seq<Observed>, payment: string) returns (r: Option<Observed>)
      ensures r == FindObserved(payments, payment)
    {
      for n := 0 to |payments|
        invariant FindObserved(payments, payment) == FindObserved(payments[n..], payment)
      {
        assert payments[n..][1..] == payments[n + 1..];
        if payments[n].payment == payment {
          return Some(payments[n]);
        }
      }
      return None;
    }

    method ResolveReview(j: nat, action: Resolution, payments: seq<Observed>, terms: Terms) returns (r: Result<(), DepositError>)
      requires j < |deposits|
      modifies this, ledger
      ensures Ran(D.ResolveReview(old(Books()), old(deposits[j]), action, payments, terms),
                  old(Books()), old(deposits), j, r, Books(), deposits)
    {
      hide RecordOne, Amounts.ToUnits;
      var before, kept := ledger.View(), deposits;
      if deposits[j].status != Review {
        return Failure(IllegalTransition);
      }
      match action {
        case Dismiss =>
          deposits := deposits[j := deposits[j].(status := Dismissed)];
          return Success(());
        case CreditPayment(payment) =>
          if payment == "" {
            return Failure(PaymentNotFound);
          }
          if deposits[j].invoice.None? {
            return Failure(InvoiceMismatch);
          }
          var observed := LookUpObserved(payments, payment);
          if observed.None? || observed.value.state != PaymentSettled {
            return Failure(PaymentNotFound);
          }
          var units := Amounts.ToUnits(observed.value.value, terms.decimals);
          if units.Failure? {
            return Failure(AmountUnreadable);
          }
          r := RecordPayment(j, Parsed(payment, units.value, true), deposits[j].invoice.value, true, true, terms.actor);
          if r.Failure? {
            RollBack(before, kept);
            return;
          }
          deposits := deposits[j := deposits[j].(status := Settled)];
      }
    }
  }
}
