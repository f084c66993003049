/** What each withdrawal has done to the books so far, and that every operation moves the
    books by exactly the change in that. */
module WithdrawalBooks {
  import opened Texts
  import opened Wrappers
  import opened Sums
  import opened Ledger
  import opened Fees
  import opened Withdrawals
  import Tron

  function On(sel: AccountKey -> bool, key: AccountKey, amount: int): int {
    if sel(key) then amount else 0
  }

  function HoldShare(w: Withdrawal, sel: AccountKey -> bool): int {
    On(sel, AvailableKey(w.asset, w.user), w.gross) + On(sel, HoldKey(w.asset, w.user), -w.gross)
  }

  function CommitShare(w: Withdrawal, committed: int, sel: AccountKey -> bool): int {
    On(sel, SystemKey(w.asset, PayoutsInFlight), committed) + On(sel, SystemKey(w.asset, HotWallet), -committed)
  }

  function SettleShare(w: Withdrawal, committed: int, walletFee: int, sel: AccountKey -> bool): int {
    On(sel, HoldKey(w.asset, w.user), w.gross)
      + On(sel, SystemKey(w.asset, PayoutsInFlight), -committed)
      + On(sel, SystemKey(w.asset, NetworkFeeExpense), walletFee)
      + On(sel, SystemKey(w.asset, FeeIncome), -SettleFee(w))
      + On(sel, SystemKey(w.asset, HotWallet), -(walletFee - (committed - SettleNet(w))))
  }

  /** The net movement of a selection of accounts by all of a row's entries: hold, submit,
      settle, and on release the reversal of hold and submit. */
  function RowEffect(b: Book, w: Withdrawal, sel: AccountKey -> bool): int {
    (if w.hold.Some? && w.release.None? then HoldShare(w, sel) else 0)
      + (if w.submit.Some? && w.release.None? then CommitShare(w, Committed(b, w), sel) else 0)
      + (if w.settle.Some? then SettleShare(w, Committed(b, w), BookedFee(b, w), sel) else 0)
  }

  ghost predicate EntriesOk(b: Book, w: Withdrawal) {
    && 0 < w.gross <= MAX_BIGINT && w.hold.Some?
    && (w.submit.Some? ==>
          && w.submit.value < |b.entries| && w.fee.Some? && w.net.Some?
          && w.fee.value + w.net.value == w.gross && w.fee.value >= 0 && w.net.value >= 0
          && Committed(b, w) > 0)
    && (w.settle.Some? ==>
          && w.submit.Some? && w.release.None? && w.settle.value < |b.entries| && BookedFee(b, w) >= 0)
  }

  predicate StatusOk(w: Withdrawal) {
    && !w.status.Requested? && !w.status.Rejected?
    && (w.status.Confirmed? <==> w.settle.Some?)
    && (w.status.Refunded? <==> w.release.Some?)
    && (w.backendRef.Some? <==> w.submit.Some?)
    && (w.submit.Some? ==> w.status in {Submitted, Broadcast, Confirmed, Failed, Refunded})
  }

  ghost predicate RowOk(b: Book, w: Withdrawal) {
    EntriesOk(b, w) && StatusOk(w)
  }

  /** What no operation changes about a row. */
  predicate SameRequest(w: Withdrawal, w': Withdrawal) {
    w'.user == w.user && w'.asset == w.asset && w'.gross == w.gross && w'.destination == w.destination
    && w'.auto == w.auto && w'.backend == w.backend && w'.createdAt == w.createdAt
  }

  /** An operation took (b, w) to (b', w'): the books stay consistent and keep their past, the
      row stays sound, and the selection moved by exactly the change in the row's effect. */
  ghost predicate Accounted(b: Book, w: Withdrawal, b': Book, w': Withdrawal, sel: AccountKey -> bool) {
    && Consistent(b') && Extends(b, b') && NoDepositCredits(b, b') && RowOk(b', w') && SameRequest(w, w')
    && SelSum(b'.accounts, sel) - SelSum(b.accounts, sel) == RowEffect(b', w', sel) - RowEffect(b, w, sel)
  }

  /** Nothing appended is a deposit credit. */
  ghost predicate NoDepositCredits(b: Book, b': Book) {
    forall k :: |b.entries| <= k < |b'.entries| ==> b'.entries[k].kind != DepositCredit
  }

  // -- stability ---------------------------------------------------------------------

  lemma PostingSumStable(s: seq<Account>, t: seq<Account>, ps: seq<Posting>, sel: AccountKey -> bool)
    requires |s| <= |t| && forall i :: 0 <= i < |s| ==> t[i].key == s[i].key
    requires forall p :: p in ps ==> ValidId(s, p.account)
    ensures PostingSum(t, ps, sel) == PostingSum(s, ps, sel)
  {
    forall k | 0 <= k < |ps| ensures Hits(s, sel)(ps[k]) == Hits(t, sel)(ps[k]) {
      assert ps[k] in ps;
      assert t[ps[k].account].key == s[ps[k].account].key;
    }
    SumSame(ps, Hits(s, sel), Hits(t, sel));
  }

  lemma PostedToStable(b: Book, b': Book, entry: Option<nat>, kind: AccountKind)
    requires Consistent(b) && Extends(b, b') && (entry.Some? ==> entry.value < |b.entries|)
    ensures PostedTo(b', entry, kind) == PostedTo(b, entry, kind)
  {
    if entry.Some? {
      assert EntryOk(b.accounts, b.entries[entry.value]);
      PostingSumStable(b.accounts, b'.accounts, b.entries[entry.value].postings, KindIs(kind));
    }
  }

  /** A row's effect does not depend on what others append to the books. */
  lemma RowStable(b: Book, b': Book, w: Withdrawal)
    requires Consistent(b) && Extends(b, b') && EntriesOk(b, w)
    ensures EntriesOk(b', w) && Committed(b', w) == Committed(b, w) && BookedFee(b', w) == BookedFee(b, w)
    ensures forall sel :: RowEffect(b', w, sel) == RowEffect(b, w, sel)
  {
    PostedToStable(b, b', w.submit, PayoutsInFlight);
    PostedToStable(b, b', w.settle, NetworkFeeExpense);
  }

  lemma ExtendsTransitive(a: Book, b: Book, c: Book)
    requires Extends(a, b) && Extends(b, c)
    ensures Extends(a, c)
    ensures NoDepositCredits(a, b) && NoDepositCredits(b, c) ==> NoDepositCredits(a, c)
  {
    if NoDepositCredits(a, b) && NoDepositCredits(b, c) {
      forall k | |a.entries| <= k < |c.entries| ensures c.entries[k].kind != DepositCredit {
        if k < |b.entries| {
          assert c.entries[k] == b.entries[k];
        }
      }
    }
  }

  /** Only the entries and the amounts matter to the books. */
  lemma SameEntriesSameEffect(b: Book, w: Withdrawal, w': Withdrawal, sel: AccountKey -> bool)
    requires SameRequest(w, w') && w'.fee == w.fee && w'.net == w.net
    requires w'.hold == w.hold && w'.submit == w.submit && w'.settle == w.settle && w'.release == w.release
    ensures RowEffect(b, w', sel) == RowEffect(b, w, sel)
  {
    hide PostedTo;
  }

  lemma ExtendsSelf(b: Book)
    ensures Extends(b, b) && NoDepositCredits(b, b)
  {
  }

  // -- sums of short posting lists -------------------------------------------------------

  function Hit(accounts: seq<Account>, p: Posting, sel: AccountKey -> bool): int {
    Hits(accounts, sel)(p)
  }

  function KindHit(accounts: seq<Account>, p: Posting, kind: AccountKind): int {
    if ValidId(accounts, p.account) && accounts[p.account].key.kind == kind then p.amount else 0
  }

  lemma HitByKind(accounts: seq<Account>, p: Posting, kind: AccountKind)
    ensures Hit(accounts, p, KindIs(kind)) == KindHit(accounts, p, kind)
  {
    if ValidId(accounts, p.account) {
      assert KindIs(kind)(accounts[p.account].key) <==> accounts[p.account].key.kind == kind;
    }
  }

  lemma PairSum(accounts: seq<Account>, p: Posting, q: Posting, sel: AccountKey -> bool)
    ensures PostingSum(accounts, [p, q], sel) == Hit(accounts, p, sel) + Hit(accounts, q, sel)
  {
    SumAppend([], p, Hits(accounts, sel));
    SumAppend([p], q, Hits(accounts, sel));
    assert [] + [p] == [p] && [p] + [q] == [p, q];
  }

  lemma OneIfSum(accounts: seq<Account>, ps: seq<Posting>, condition: bool, p: Posting, sel: AccountKey -> bool)
    ensures PostingSum(accounts, ps + OneIf(condition, p), sel)
         == PostingSum(accounts, ps, sel) + if condition then Hit(accounts, p, sel) else 0
  {
    if condition {
      SumAppend(ps, p, Hits(accounts, sel));
    } else {
      assert ps + OneIf(condition, p) == ps;
    }
  }

  lemma UserAccountsStep(b: Book, asset: string, user: string, sel: AccountKey -> bool)
    requires Consistent(b)
    ensures var (b', available, hold) := UserAccounts(b, asset, user);
      && Consistent(b') && Extends(b, b') && NoDepositCredits(b, b') && b'.entries == b.entries
      && available < |b'.accounts| && b'.accounts[available].key == AvailableKey(asset, user)
      && hold < |b'.accounts| && b'.accounts[hold].key == HoldKey(asset, user)
      && SelSum(b'.accounts, sel) == SelSum(b.accounts, sel)
  {
    EnsuredKeepsConsistent(b, AvailableKey(asset, user));
    EnsuredSel(b, AvailableKey(asset, user), sel);
    var (b1, _) := Ensured(b, AvailableKey(asset, user));
    EnsuredKeepsConsistent(b1, HoldKey(asset, user));
    EnsuredSel(b1, HoldKey(asset, user), sel);
  }

  /** What a successful two-line entry does, for any selection and seen by account kind. */
  lemma PairStep(b: Book, e: Entry, p: Posting, q: Posting, sel: AccountKey -> bool)
    requires Consistent(b) && e.postings == [p, q] && PostFor(b, e).Success?
    ensures var b' := PostFor(b, e).value;
      && Consistent(b') && Extends(b, b') && SameKeys(b.accounts, b'.accounts)
      && b'.entries == b.entries + [e] && (e.kind != DepositCredit ==> NoDepositCredits(b, b'))
      && SelSum(b'.accounts, sel) == SelSum(b.accounts, sel) + Hit(b.accounts, p, sel) + Hit(b.accounts, q, sel)
      && forall kind :: PostedTo(b', Some(|b.entries|), kind) == KindHit(b.accounts, p, kind) + KindHit(b.accounts, q, kind)
  {
    var b' := PostFor(b, e).value;
    PostKeepsConsistent(b, e);
    PostEffect(b, e, sel);
    PairSum(b.accounts, p, q, sel);
    assert b'.entries[|b.entries|] == e;
    forall kind
      ensures PostedTo(b', Some(|b.entries|), kind) == KindHit(b.accounts, p, kind) + KindHit(b.accounts, q, kind)
    {
      PairSum(b'.accounts, p, q, KindIs(kind));
      HitByKind(b'.accounts, p, kind);
      HitByKind(b'.accounts, q, kind);
    }
  }

  // -- the operations --------------------------------------------------------------------

  /** A placed hold adds one row whose effect is all that the books moved by. */
  lemma PlaceHoldAccounted(b: Book, ws: seq<Withdrawal>, assets: map<string, AssetRow>, req: Request,
                           now: int, createdAt: int, sel: AccountKey -> bool)
    requires Consistent(b) && PlaceHold(b, ws, assets, req, now, createdAt).Success?
    ensures var (b', w) := PlaceHold(b, ws, assets, req, now, createdAt).value;
      && Consistent(b') && Extends(b, b') && NoDepositCredits(b, b') && RowOk(b', w)
      && SelSum(b'.accounts, sel) - SelSum(b.accounts, sel) == RowEffect(b', w, sel)
  {
    hide Consistent, Extends, NoDepositCredits, Post, UserAccounts, PostedTo;
    var (b1, available, hold) := UserAccounts(b, req.asset, req.user);
    UserAccountsStep(b, req.asset, req.user, sel);
    var (b', w) := PlaceHold(b, ws, assets, req, now, createdAt).value;
    PairStep(b1, HoldEntry(|ws|, w, available, hold), Posting(available, w.gross), Posting(hold, -w.gross), sel);
    ExtendsTransitive(b, b1, b');
  }

  lemma PostSubmitStep(b: Book, id: nat, w: Withdrawal, q: FeeQuote, sel: AccountKey -> bool)
    requires Consistent(b) && PostSubmitEntry(b, id, w, q).Success?
    ensures var (b', w') := PostSubmitEntry(b, id, w, q).value;
      && Consistent(b') && Extends(b, b') && NoDepositCredits(b, b') && w' == w.(submit := Some(|b.entries|)) && |b.entries| < |b'.entries|
      && Committed(b', w') == q.Committed()
      && SelSum(b'.accounts, sel) == SelSum(b.accounts, sel) + CommitShare(w, q.Committed(), sel)
  {
    hide Consistent, Extends, NoDepositCredits, Post, PostedTo;
    var hot := SystemAccount(b, w.asset, HotWallet).value;
    var inFlight := SystemAccount(b, w.asset, PayoutsInFlight).value;
    var p, r := Posting(inFlight, q.Committed()), Posting(hot, -q.Committed());
    PairStep(b, Entry(WithdrawalSubmit, w.asset, WithdrawalRef("withdrawal_submit", id), [p, r], None), p, r, sel);
  }

  /** A submission may be recorded on any row that has committed, settled and released nothing. */
  lemma RecordSubmissionAccounted(b: Book, id: nat, w: Withdrawal, ref: Reference, q: FeeQuote, sel: AccountKey -> bool)
    requires Consistent(b) && EntriesOk(b, w) && w.submit.None? && w.settle.None? && w.release.None?
    requires Sound(q, w.gross)
    requires RecordSubmission(b, id, w, ref, q).Success?
    ensures var (b', w') := RecordSubmission(b, id, w, ref, q).value;
      Accounted(b, w, b', w', sel) && w'.status == Submitted && w'.submit.Some? && w'.backendRef == Some(ref)
      && Committed(b', w') == q.Committed() && w'.fee == Some(q.fee) && w'.net == Some(q.net) && w'.txid == w.txid
  {
    hide Consistent, Extends, NoDepositCredits, Post, PostedTo, PostSubmitEntry;
    PostSubmitStep(b, id, w.(backendRef := Some(ref), fee := Some(q.fee), net := Some(q.net)), q, sel);
  }

  lemma SubmitManualAccounted(b: Book, id: nat, w: Withdrawal, token: nat, q: FeeQuote, sel: AccountKey -> bool)
    requires Consistent(b) && RowOk(b, w) && Sound(q, w.gross)
    requires SubmitManual(b, id, w, token, q).Success?
    ensures var (b', w') := SubmitManual(b, id, w, token, q).value;
      Accounted(b, w, b', w', sel) && w'.status == Submitted && w'.submit.Some?
      && Committed(b', w') == q.Committed() && w'.fee == Some(q.fee) && w'.net == Some(q.net) && w'.txid == w.txid
  {
    hide Consistent, Extends, NoDepositCredits, Post, PostedTo, PostSubmitEntry;
    PostSubmitStep(b, id, w.(backendRef := Some(ManualRef(token)), fee := Some(q.fee), net := Some(q.net)), q, sel);
  }

  lemma SettlePostingsSum(accounts: seq<Account>, w: Withdrawal, committed: int, walletFee: int,
                          hold: nat, inFlight: nat, expense: nat, income: nat, hot: nat, sel: AccountKey -> bool)
    ensures PostingSum(accounts, SettlePostings(w, committed, walletFee, hold, inFlight, expense, income, hot), sel)
         == Hit(accounts, Posting(hold, w.gross), sel) + Hit(accounts, Posting(inFlight, -committed), sel)
          + Hit(accounts, Posting(expense, walletFee), sel) + Hit(accounts, Posting(income, -SettleFee(w)), sel)
          + Hit(accounts, Posting(hot, -(walletFee - (committed - SettleNet(w)))), sel)
  {
    var drift := walletFee - (committed - SettleNet(w));
    var first := [Posting(hold, w.gross), Posting(inFlight, -committed)];
    var second := first + OneIf(walletFee != 0, Posting(expense, walletFee));
    var third := second + OneIf(SettleFee(w) != 0, Posting(income, -SettleFee(w)));
    PairSum(accounts, first[0], first[1], sel);
    OneIfSum(accounts, first, walletFee != 0, Posting(expense, walletFee), sel);
    OneIfSum(accounts, second, SettleFee(w) != 0, Posting(income, -SettleFee(w)), sel);
    OneIfSum(accounts, third, drift != 0, Posting(hot, -drift), sel);
  }

  function SettledFee(b: Book, w: Withdrawal, actual: Option<int>): int {
    if actual.Some? then actual.value else Committed(b, w) - SettleNet(w)
  }

  lemma SettleEntryStep(b: Book, w: Withdrawal, committed: int, walletFee: int,
                        hold: nat, inFlight: nat, expense: nat, income: nat, hot: nat, e: Entry, sel: AccountKey -> bool)
    requires Consistent(b) && PostFor(b, e).Success?
    requires e.postings == SettlePostings(w, committed, walletFee, hold, inFlight, expense, income, hot)
    requires hold < |b.accounts| && b.accounts[hold].key == HoldKey(w.asset, w.user)
    requires inFlight < |b.accounts| && b.accounts[inFlight].key == SystemKey(w.asset, PayoutsInFlight)
    requires expense < |b.accounts| && b.accounts[expense].key == SystemKey(w.asset, NetworkFeeExpense)
    requires income < |b.accounts| && b.accounts[income].key == SystemKey(w.asset, FeeIncome)
    requires walletFee != committed - SettleNet(w) ==>
      hot < |b.accounts| && b.accounts[hot].key == SystemKey(w.asset, HotWallet)
    ensures var b' := PostFor(b, e).value;
      && Consistent(b') && Extends(b, b') && b'.entries == b.entries + [e]
      && (e.kind != DepositCredit ==> NoDepositCredits(b, b'))
      && PostedTo(b', Some(|b.entries|), NetworkFeeExpense) == walletFee
      && SelSum(b'.accounts, sel) == SelSum(b.accounts, sel) + SettleShare(w, committed, walletFee, sel)
  {
    hide Consistent, Extends, Post, SettlePostings;
    var b' := PostFor(b, e).value;
    PostKeepsConsistent(b, e);
    PostEffect(b, e, sel);
    assert b'.entries[|b.entries|] == e;
    SettlePostingsSum(b.accounts, w, committed, walletFee, hold, inFlight, expense, income, hot, sel);
    SettlePostingsSum(b'.accounts, w, committed, walletFee, hold, inFlight, expense, income, hot, KindIs(NetworkFeeExpense));
    HitByKind(b'.accounts, Posting(hold, w.gross), NetworkFeeExpense);
    HitByKind(b'.accounts, Posting(inFlight, -committed), NetworkFeeExpense);
    HitByKind(b'.accounts, Posting(expense, walletFee), NetworkFeeExpense);
    HitByKind(b'.accounts, Posting(income, -SettleFee(w)), NetworkFeeExpense);
    HitByKind(b'.accounts, Posting(hot, -(walletFee - (committed - SettleNet(w)))), NetworkFeeExpense);
  }

  lemma PostSettleStep(b: Book, id: nat, w: Withdrawal, actual: Option<int>, sel: AccountKey -> bool)
    requires Consistent(b) && PostSettleEntry(b, id, w, actual).Success?
    ensures var (b', w') := PostSettleEntry(b, id, w, actual).value;
      && Consistent(b') && Extends(b, b') && NoDepositCredits(b, b') && w' == w.(settle := Some(|b.entries|)) && |b.entries| < |b'.entries|
      && w.submit.Some? && (actual.Some? ==> actual.value >= 0)
      && BookedFee(b', w') == SettledFee(b, w, actual)
      && SelSum(b'.accounts, sel) == SelSum(b.accounts, sel) + SettleShare(w, Committed(b, w), SettledFee(b, w, actual), sel)
  {
    hide Consistent, Extends, NoDepositCredits, Post, UserAccounts, SettlePostings, PostedTo, SettleShare;
    var committed, walletFee := Committed(b, w), SettledFee(b, w, actual);
    var (b1, _, hold) := UserAccounts(b, w.asset, w.user);
    UserAccountsStep(b, w.asset, w.user, sel);
    var inFlight := SystemAccount(b1, w.asset, PayoutsInFlight).value;
    var expense := SystemAccount(b1, w.asset, NetworkFeeExpense).value;
    var income := SystemAccount(b1, w.asset, FeeIncome).value;
    var hot := if walletFee != committed - SettleNet(w) then SystemAccount(b1, w.asset, HotWallet).value else 0;
    var ps := SettlePostings(w, committed, walletFee, hold, inFlight, expense, income, hot);
    var e := Entry(WithdrawalSettle, w.asset, WithdrawalRef("withdrawal_settle", id), ps, None);
    var (b', _) := PostSettleEntry(b, id, w, actual).value;
    SettleEntryStep(b1, w, committed, walletFee, hold, inFlight, expense, income, hot, e, sel);
    ExtendsTransitive(b, b1, b');
  }

  /** Settling moves the books by the change in the row's effect. */
  lemma SettleAccounted(b: Book, id: nat, w: Withdrawal, actual: Option<int>, sel: AccountKey -> bool)
    requires Consistent(b) && EntriesOk(b, w) && w.settle.None? && w.release.None?
    requires w.submit.Some? && actual.None? ==> Committed(b, w) >= SettleNet(w)
    requires PostSettleEntry(b, id, w, actual).Success?
    ensures var (b', w') := PostSettleEntry(b, id, w, actual).value;
      && Consistent(b') && Extends(b, b') && NoDepositCredits(b, b') && EntriesOk(b', w') && w' == w.(settle := w'.settle) && w'.settle.Some?
      && w.submit.Some? && Committed(b', w') == Committed(b, w) && BookedFee(b', w') == SettledFee(b, w, actual)
      && SelSum(b'.accounts, sel) - SelSum(b.accounts, sel) == RowEffect(b', w', sel) - RowEffect(b, w, sel)
  {
    hide Consistent, Extends, NoDepositCredits, PostSettleEntry, PostedTo;
    PostSettleStep(b, id, w, actual, sel);
    RowStable(b, PostSettleEntry(b, id, w, actual).value.0, w);
  }

  lemma UnsubmitStep(b: Book, id: nat, w: Withdrawal, sel: AccountKey -> bool)
    requires Consistent(b) && PostUnsubmitEntry(b, id, w).Success?
    ensures var b' := PostUnsubmitEntry(b, id, w).value;
      && Consistent(b') && Extends(b, b') && NoDepositCredits(b, b')
      && SelSum(b'.accounts, sel)
         == SelSum(b.accounts, sel) - if w.submit.Some? then CommitShare(w, Committed(b, w), sel) else 0
  {
    hide Consistent, NoDepositCredits, Post, PostedTo;
    ExtendsSelf(b);
    if w.submit.Some? {
      hide Extends;
      var c := Committed(b, w);
      var hot := SystemAccount(b, w.asset, HotWallet).value;
      var inFlight := SystemAccount(b, w.asset, PayoutsInFlight).value;
      var p, q := Posting(hot, c), Posting(inFlight, -c);
      PairStep(b, Entry(Reversal, w.asset, WithdrawalRef("withdrawal_submit_reversal", id), [p, q], w.submit), p, q, sel);
    }
  }

  lemma PostReleaseStep(b: Book, id: nat, w: Withdrawal, sel: AccountKey -> bool)
    requires Consistent(b) && PostReleaseEntry(b, id, w).Success?
    ensures var (b', w') := PostReleaseEntry(b, id, w).value;
      && Consistent(b') && Extends(b, b') && NoDepositCredits(b, b') && w' == w.(release := Some(|b.entries|))
      && SelSum(b'.accounts, sel) == SelSum(b.accounts, sel) - HoldShare(w, sel)
  {
    hide Consistent, Extends, NoDepositCredits, Post, PostedTo, UserAccounts;
    var (b1, available, hold) := UserAccounts(b, w.asset, w.user);
    UserAccountsStep(b, w.asset, w.user, sel);
    var r, s := Posting(hold, w.gross), Posting(available, -w.gross);
    PairStep(b1, Entry(WithdrawalRelease, w.asset, WithdrawalRef("withdrawal_release", id), [r, s], None), r, s, sel);
    ExtendsTransitive(b, b1, PostReleaseEntry(b, id, w).value.0);
  }

  /** Releasing moves back exactly what holding and submitting moved. */
  lemma ReleaseHoldAccounted(b: Book, id: nat, w: Withdrawal, actor: string, attestation: Option<string>, sel: AccountKey -> bool)
    requires Consistent(b) && EntriesOk(b, w) && w.settle.None? && w.release.None?
    requires w.backendRef.Some? <==> w.submit.Some?
    requires ReleaseHold(b, id, w, actor, attestation).Success?
    ensures var (b', w') := ReleaseHold(b, id, w, actor, attestation).value;
      Accounted(b, w, b', w', sel) && w'.status == Refunded && w'.release.Some? && w'.submit == w.submit
      && w'.fee == w.fee && w'.net == w.net && w'.txid == w.txid && w'.backendRef == w.backendRef
  {
    hide Consistent, Extends, NoDepositCredits, PostUnsubmitEntry, PostReleaseEntry, PostedTo, MarkRefunded, Blank, HoldShare, CommitShare;
    UnsubmitStep(b, id, w, sel);
    var b1 := PostUnsubmitEntry(b, id, w).value;
    PostReleaseStep(b1, id, w, sel);
    ReleasableIsRefundable(PostReleaseEntry(b1, id, w).value.1, actor, attestation);
    var b' := ReleaseHold(b, id, w, actor, attestation).value.0;
    ExtendsTransitive(b, b1, b');
    RowStable(b, b', w);
  }

  predicate PayoutTargetStatus(s: Status) {
    s in {Submitted, Broadcast, Confirmed, Failed}
  }

  lemma MoveToAccounted(b: Book, id: nat, w: Withdrawal, target: Status, actual: Option<int>, sel: AccountKey -> bool)
    requires Consistent(b) && RowOk(b, w) && PayoutTargetStatus(target)
    requires target == Confirmed ==> !w.status.Failed? && !w.status.Refunded?
    requires w.submit.Some? && actual.None? ==> Committed(b, w) >= SettleNet(w)
    requires MoveTo(b, id, w, target, actual).Success?
    ensures var (b', w') := MoveTo(b, id, w, target, actual).value;
      Accounted(b, w, b', w', sel) && KeepsTerms(w, w') && Committed(b', w') == Committed(b, w) && w'.txid == w.txid
  {
    hide Consistent, Extends, NoDepositCredits, PostedTo, PostSettleEntry, RowEffect;
    var (b', w') := MoveTo(b, id, w, target, actual).value;
    if target == Confirmed && w.settle.None? {
      SettleAccounted(b, id, w, actual, sel);
      SameEntriesSameEffect(b', PostSettleEntry(b, id, w, actual).value.1, w', sel);
    } else {
      ExtendsSelf(b);
      SameEntriesSameEffect(b, w, w', sel);
    }
  }

  /** What a payout report never changes about a row. */
  predicate KeepsTerms(w: Withdrawal, w': Withdrawal) {
    w'.hold == w.hold && w'.submit == w.submit && w'.release == w.release
    && w'.fee == w.fee && w'.net == w.net && w'.backendRef == w.backendRef
  }

  /** Any reported state may be applied to a row, save a completion of a failed or released one. */
  lemma ApplyPayoutStateAccounted(b: Book, ws: seq<Withdrawal>, id: nat, w: Withdrawal, report: Report,
                                  actual: Option<int>, sel: AccountKey -> bool)
    requires Consistent(b) && RowOk(b, w)
    requires report.state == Completed ==> !w.status.Failed? && !w.status.Refunded?
    requires w.submit.Some? && actual.None? ==> Committed(b, w) >= SettleNet(w)
    requires ApplyPayoutState(b, ws, id, w, report, actual).Success?
    ensures var (b', w') := ApplyPayoutState(b, ws, id, w, report, actual).value;
      Accounted(b, w, b', w', sel) && KeepsTerms(w, w') && Committed(b', w') == Committed(b, w)
  {
    hide Consistent, Extends, NoDepositCredits, PostedTo, MoveTo, TxidFree, RowEffect;
    var w1 := if report.txid.Some? && w.txid.None? then w.(txid := report.txid) else w;
    SameEntriesSameEffect(b, w, w1, sel);
    match PayoutTarget(report.state) {
      case None =>
        ExtendsSelf(b);
      case Some(target) =>
        MoveToAccounted(b, id, w1, target, actual, sel);
    }
  }

  lemma PollManualAccounted(b: Book, id: nat, w: Withdrawal, chain: Tron.Chain, height: int, required: int, sel: AccountKey -> bool)
    requires Consistent(b) && RowOk(b, w)
    requires w.submit.Some? ==> Committed(b, w) >= SettleNet(w)
    requires PollManual(b, id, w, chain, height, required).Success?
    ensures var (b', w') := PollManual(b, id, w, chain, height, required).value;
      Accounted(b, w, b', w', sel) && KeepsTerms(w, w') && w'.txid == w.txid
      && Committed(b', w') == Committed(b, w)
  {
    hide Consistent, Extends, NoDepositCredits, Post, PostedTo, PostSettleEntry, RowEffect;
    var (b', w') := PollManual(b, id, w, chain, height, required).value;
    if w' != w {
      SettleAccounted(b, id, w, None, sel);
      SameEntriesSameEffect(b', PostSettleEntry(b, id, w, None).value.1, w', sel);
    } else {
      ExtendsSelf(b);
    }
  }
}
