/** The double-entry ledger: account rows, append-only journal entries, and the one
    operation that moves money. An account id or an entry id is a row number. */
module Ledger {
  import opened Wrappers
  import opened Sums

  datatype AccountKind =
    | UserAvailable | UserHold | HotWallet | PayoutsInFlight
    | FeeIncome | NetworkFeeExpense | External | UserDeficit

  datatype EntryKind =
    | DepositCredit | WithdrawalHold | WithdrawalSubmit | WithdrawalSettle
    | WithdrawalRelease | Adjustment | Reversal

  /** What identifies an account row; the unique indexes make it a key. */
  datatype AccountKey = AccountKey(asset: string, kind: AccountKind, user: Option<string>)

  datatype Account = Account(key: AccountKey, balance: int)

  /** A debit is positive, a credit negative. */
  datatype Posting = Posting(account: int, amount: int)

  /** The structured content of a `source_ref` string. */
  datatype SourceRef = WithdrawalRef(step: string, withdrawal: nat) | PaymentRef(invoice: string, payment: string)

  datatype Entry = Entry(kind: EntryKind, asset: string, ref: SourceRef,
                         postings: seq<Posting>, reverses: Option<nat>)

  datatype Book = Book(accounts: seq<Account>, entries: seq<Entry>)

  datatype LedgerError =
    | UnbalancedEntry | ZeroPosting | AccountNotFound | AssetMismatch
    | AlreadyPosted(entry: nat) | InsufficientFunds

  const EMPTY_BOOK := Book([], [])

  // -- account rows ------------------------------------------------------------

  predicate IsUserKind(kind: AccountKind) {
    kind.UserAvailable? || kind.UserHold?
  }

  predicate CreditNormal(kind: AccountKind) {
    kind.UserAvailable? || kind.UserHold? || kind.FeeIncome? || kind.External?
  }

  /** The two balance CHECKs, `no_overdraft` and `no_negative_asset`. */
  predicate SignOk(kind: AccountKind, balance: int) {
    kind.External? || kind.UserDeficit? || (if CreditNormal(kind) then balance <= 0 else balance >= 0)
  }

  predicate ValidId(accounts: seq<Account>, id: int) {
    0 <= id < |accounts|
  }

  function Find(accounts: seq<Account>, key: AccountKey): (r: Option<nat>)
    ensures r.Some? ==> r.value < |accounts| && accounts[r.value].key == key
    ensures r.None? ==> forall i :: 0 <= i < |accounts| ==> accounts[i].key != key
  {
    if accounts == [] then None
    else if accounts[|accounts| - 1].key == key then Some(|accounts| - 1)
    else Find(accounts[..|accounts| - 1], key)
  }

  /** The id of a provisioned row, and the book that holds it. */
  function Ensured(b: Book, key: AccountKey): (Book, nat) {
    match Find(b.accounts, key)
    case Some(id) => (b, id)
    case None => (b.(accounts := b.accounts + [Account(key, 0)]), |b.accounts|)
  }

  /** `get_or_create_account`: a user kind needs a user and a system kind takes none. */
  function Provision(b: Book, key: AccountKey): Result<(Book, nat), LedgerError> {
    if IsUserKind(key.kind) != key.user.Some? then Failure(AccountNotFound)
    else Success(Ensured(b, key))
  }

  // -- postings ----------------------------------------------------------------

  function Amount(): Posting -> int {
    (p: Posting) => p.amount
  }

  function AmountFor(id: int): Posting -> int {
    (p: Posting) => if p.account == id then p.amount else 0
  }

  function Total(ps: seq<Posting>): int {
    Sum(ps, Amount())
  }

  function Delta(ps: seq<Posting>, id: int): int {
    Sum(ps, AmountFor(id))
  }

  function Moved(accounts: seq<Account>, ps: seq<Posting>): (r: seq<Account>)
    ensures |r| == |accounts|
    ensures forall i :: 0 <= i < |r| ==> r[i] == Account(accounts[i].key, accounts[i].balance + Delta(ps, i))
  {
    seq(|accounts|, i requires 0 <= i < |accounts| =>
      Account(accounts[i].key, accounts[i].balance + Delta(ps, i)))
  }

  function FindEntry(entries: seq<Entry>, kind: EntryKind, ref: SourceRef): (r: Option<nat>)
    ensures r.Some? ==> r.value < |entries| && entries[r.value].kind == kind && entries[r.value].ref == ref
    ensures r.None? ==> forall k :: 0 <= k < |entries| ==> !(entries[k].kind == kind && entries[k].ref == ref)
  {
    if entries == [] then None
    else
      var last := entries[|entries| - 1];
      if last.kind == kind && last.ref == ref then Some(|entries| - 1)
      else FindEntry(entries[..|entries| - 1], kind, ref)
  }

  /** What one call of `post_entry` commits, or the error it raises having written nothing. */
  function Post(b: Book, e: Entry): Result<Book, LedgerError> {
    if |e.postings| < 2 then Failure(UnbalancedEntry)
    else if exists p :: p in e.postings && p.amount == 0 then Failure(ZeroPosting)
    else if Total(e.postings) != 0 then Failure(UnbalancedEntry)
    else if exists p :: p in e.postings && !ValidId(b.accounts, p.account) then Failure(AccountNotFound)
    else if exists p :: p in e.postings && b.accounts[p.account].key.asset != e.asset then Failure(AssetMismatch)
    else
      match FindEntry(b.entries, e.kind, e.ref)
      case Some(k) => Failure(AlreadyPosted(k))
      case None =>
        var after := Moved(b.accounts, e.postings);
        if exists i :: 0 <= i < |after| && Delta(e.postings, i) != 0 && !SignOk(after[i].key.kind, after[i].balance)
        then Failure(InsufficientFunds)
        else Success(Book(after, b.entries + [e]))
  }

  // -- selections of accounts ----------------------------------------------------

  function Selected(sel: AccountKey -> bool): Account -> int {
    (a: Account) => if sel(a.key) then a.balance else 0
  }

  function SelSum(accounts: seq<Account>, sel: AccountKey -> bool): int {
    Sum(accounts, Selected(sel))
  }

  function Hits(accounts: seq<Account>, sel: AccountKey -> bool): Posting -> int {
    (p: Posting) => if ValidId(accounts, p.account) && sel(accounts[p.account].key) then p.amount else 0
  }

  /** How much a list of postings moves a selection of accounts. */
  function PostingSum(accounts: seq<Account>, ps: seq<Posting>, sel: AccountKey -> bool): int {
    Sum(ps, Hits(accounts, sel))
  }

  lemma {:induction false} MovedSel(accounts: seq<Account>, ps: seq<Posting>, sel: AccountKey -> bool)
    requires forall p :: p in ps ==> ValidId(accounts, p.account)
    ensures SelSum(Moved(accounts, ps), sel) == SelSum(accounts, sel) + PostingSum(accounts, ps, sel)
  {
    if ps == [] {
      assert Moved(accounts, ps) == accounts;
    } else {
      var n := |ps| - 1;
      var p := ps[n];
      assert p in ps && forall q :: q in ps[..n] ==> q in ps;
      var before := Moved(accounts, ps[..n]);
      MovedSel(accounts, ps[..n], sel);
      var row := Account(before[p.account].key, before[p.account].balance + p.amount);
      assert Moved(accounts, ps) == before[p.account := row];
      SumUpdate(before, p.account, row, Selected(sel));
    }
  }

  /** Posting moves a selection by exactly what the entry posts to it, keeps every other row's
      identity, and appends one entry. */
  lemma PostEffect(b: Book, e: Entry, sel: AccountKey -> bool)
    requires Post(b, e).Success?
    ensures var b' := Post(b, e).value;
      && SelSum(b'.accounts, sel) == SelSum(b.accounts, sel) + PostingSum(b.accounts, e.postings, sel)
      && b'.entries == b.entries + [e]
      && SameKeys(b.accounts, b'.accounts)
  {
    MovedSel(b.accounts, e.postings, sel);
  }

  predicate SameKeys(s: seq<Account>, t: seq<Account>) {
    |s| == |t| && forall i :: 0 <= i < |s| ==> s[i].key == t[i].key
  }

  /** A later book keeps every row of an earlier one: accounts keep their identity and
      entries are append-only. */
  predicate Extends(b: Book, b': Book) {
    && b.entries <= b'.entries
    && |b.accounts| <= |b'.accounts|
    && forall i :: 0 <= i < |b.accounts| ==> b'.accounts[i].key == b.accounts[i].key
  }

  // -- consistency -----------------------------------------------------------------

  predicate EntryOk(accounts: seq<Account>, e: Entry) {
    && |e.postings| >= 2
    && Total(e.postings) == 0
    && forall p :: p in e.postings ==>
         p.amount != 0 && ValidId(accounts, p.account) && accounts[p.account].key.asset == e.asset
  }

  function DeltaOf(id: int): Entry -> int {
    (e: Entry) => Delta(e.postings, id)
  }

  /** The balance recomputed from the journal. */
  function Derived(entries: seq<Entry>, id: int): int {
    Sum(entries, DeltaOf(id))
  }

  ghost predicate Consistent(b: Book) {
    && (forall i, j :: 0 <= i < j < |b.accounts| ==> b.accounts[i].key != b.accounts[j].key)
    && (forall i :: 0 <= i < |b.accounts| ==> IsUserKind(b.accounts[i].key.kind) == b.accounts[i].key.user.Some?)
    && (forall k :: 0 <= k < |b.entries| ==> EntryOk(b.accounts, b.entries[k]))
    && (forall i, j :: 0 <= i < j < |b.entries| ==>
          !(b.entries[i].kind == b.entries[j].kind && b.entries[i].ref == b.entries[j].ref))
    && (forall i :: 0 <= i < |b.accounts| ==> b.accounts[i].balance == Derived(b.entries, i))
    && (forall i :: 0 <= i < |b.accounts| ==> SignOk(b.accounts[i].key.kind, b.accounts[i].balance))
  }

  lemma PostKeepsConsistent(b: Book, e: Entry)
    requires Consistent(b) && Post(b, e).Success?
    ensures Consistent(Post(b, e).value)
    ensures Extends(b, Post(b, e).value)
  {
    var b' := Post(b, e).value;
    PostKeepsEntries(b, e);
    PostKeepsBalances(b, e);
    assert forall i :: 0 <= i < |b'.accounts| ==> b'.accounts[i].key == b.accounts[i].key;
  }

  lemma PostKeepsEntries(b: Book, e: Entry)
    requires Consistent(b) && Post(b, e).Success?
    ensures var b' := Post(b, e).value;
      && (forall k :: 0 <= k < |b'.entries| ==> EntryOk(b'.accounts, b'.entries[k]))
      && (forall i, j :: 0 <= i < j < |b'.entries| ==>
            !(b'.entries[i].kind == b'.entries[j].kind && b'.entries[i].ref == b'.entries[j].ref))
  {
    var b' := Post(b, e).value;
    forall k | 0 <= k < |b'.entries| ensures EntryOk(b'.accounts, b'.entries[k]) {
      if k < |b.entries| {
        assert EntryOk(b.accounts, b.entries[k]);
      }
    }
  }

  lemma PostKeepsBalances(b: Book, e: Entry)
    requires Consistent(b) && Post(b, e).Success?
    ensures var b' := Post(b, e).value;
      && (forall i :: 0 <= i < |b'.accounts| ==> b'.accounts[i].balance == Derived(b'.entries, i))
      && (forall i :: 0 <= i < |b'.accounts| ==> SignOk(b'.accounts[i].key.kind, b'.accounts[i].balance))
  {
    var b' := Post(b, e).value;
    forall i | 0 <= i < |b'.accounts|
      ensures b'.accounts[i].balance == Derived(b'.entries, i)
      ensures SignOk(b'.accounts[i].key.kind, b'.accounts[i].balance)
    {
      SumAppend(b.entries, e, DeltaOf(i));
      assert b'.accounts[i].balance == b.accounts[i].balance + Delta(e.postings, i);
      assert SignOk(b.accounts[i].key.kind, b.accounts[i].balance);
    }
  }

  lemma {:induction false} UntouchedIsZero(entries: seq<Entry>, accounts: seq<Account>, id: nat)
    requires id >= |accounts|
    requires forall k :: 0 <= k < |entries| ==> EntryOk(accounts, entries[k])
    ensures Derived(entries, id) == 0
  {
    if entries != [] {
      var n := |entries| - 1;
      UntouchedIsZero(entries[..n], accounts, id);
      var ps := entries[n].postings;
      assert EntryOk(accounts, entries[n]);
      forall k | 0 <= k < |ps| ensures AmountFor(id)(ps[k]) == 0 {
        assert ps[k] in ps;
      }
      SumSame(ps, AmountFor(id), AmountFor(-1));
      SumNonNegative(ps, AmountFor(id));
      SumNegates(ps, AmountFor(id), AmountFor(id));
    }
  }

  lemma EnsuredKeepsConsistent(b: Book, key: AccountKey)
    requires Consistent(b) && IsUserKind(key.kind) == key.user.Some?
    ensures var (b', id) := Ensured(b, key);
      Consistent(b') && Extends(b, b') && id < |b'.accounts| && b'.accounts[id].key == key
      && b'.entries == b.entries
  {
    if Find(b.accounts, key).None? {
      UntouchedIsZero(b.entries, b.accounts, |b.accounts|);
      var (b', id) := Ensured(b, key);
      forall k | 0 <= k < |b'.entries| ensures EntryOk(b'.accounts, b'.entries[k]) {
        assert EntryOk(b.accounts, b.entries[k]);
      }
    }
  }

  /** A provisioned row starts at zero, so no selection moves. */
  lemma EnsuredSel(b: Book, key: AccountKey, sel: AccountKey -> bool)
    ensures SelSum(Ensured(b, key).0.accounts, sel) == SelSum(b.accounts, sel)
  {
    SumAppend(b.accounts, Account(key, 0), Selected(sel));
  }

  /** A selection of one key is that account's balance. */
  lemma {:induction false} SelOne(accounts: seq<Account>, id: nat, sel: AccountKey -> bool)
    requires id < |accounts|
    requires forall i :: 0 <= i < |accounts| ==> (sel(accounts[i].key) <==> i == id)
    ensures SelSum(accounts, sel) == accounts[id].balance
  {
    var n := |accounts| - 1;
    if id == n {
      SelNone(accounts[..n], sel);
    } else {
      SelOne(accounts[..n], id, sel);
    }
  }

  lemma {:induction false} SelNone(accounts: seq<Account>, sel: AccountKey -> bool)
    requires forall i :: 0 <= i < |accounts| ==> !sel(accounts[i].key)
    ensures SelSum(accounts, sel) == 0
  {
    if accounts != [] {
      SelNone(accounts[..|accounts| - 1], sel);
    }
  }

  // -- the store ---------------------------------------------------------------------

  /** The `accounts`, `journal_entries` and `postings` tables behind one session. */
  class LedgerStore {
    var accounts: seq<Account>
    var entries: seq<Entry>

    constructor ()
      ensures View() == EMPTY_BOOK
    {
      accounts, entries := [], [];
    }

    function View(): Book
      reads this
    {
      Book(accounts, entries)
    }

    method LookUpAccount(key: AccountKey) returns (r: Option<nat>)
      ensures r == Find(accounts, key)
    {
      var id := |accounts|;
      assert accounts[..id] == accounts;
      while id > 0
        invariant 0 <= id <= |accounts|
        invariant Find(accounts, key) == Find(accounts[..id], key)
      {
        id := id - 1;
        assert accounts[..id + 1][..id] == accounts[..id];
        if accounts[id].key == key {
          return Some(id);
        }
      }
      return None;
    }

    method GetOrCreateAccount(key: AccountKey) returns (r: Result<nat, LedgerError>)
      modifies this
      ensures match Provision(old(View()), key)
        case Success((b, id)) => View() == b && r == Success(id)
        case Failure(err) => View() == old(View()) && r == Failure(err)
    {
      if IsUserKind(key.kind) && key.user.None? {
        return Failure(AccountNotFound);
      }
      if !IsUserKind(key.kind) && key.user.Some? {
        return Failure(AccountNotFound);
      }
      var existing := LookUpAccount(key);
      if existing.Some? {
        return Success(existing.value);
      }
      accounts := accounts + [Account(key, 0)];
      return Success(|accounts| - 1);
    }

    /** The session's rollback. */
    method Restore(b: Book)
      modifies this
      ensures View() == b
    {
      accounts, entries := b.accounts, b.entries;
    }

    /** One balanced entry and its postings, or nothing at all. */
    method PostEntry(kind: EntryKind, asset: string, ref: SourceRef, postings: seq<Posting>, reverses: Option<nat>)
      returns (r: Result<nat, LedgerError>)
      modifies this
      ensures match Post(old(View()), Entry(kind, asset, ref, postings, reverses))
        case Success(b) => View() == b && r == Success(|old(entries)|)
        case Failure(err) => View() == old(View()) && r == Failure(err)
    {
      if |postings| < 2 {
        return Failure(UnbalancedEntry);
      }
      var aggregated := Aggregate(postings);
      if aggregated.Failure? {
        return Failure(aggregated.error);
      }
      var deltas := aggregated.value;
      var locked := LockAccounts(postings, asset);
      if locked.Some? {
        return Failure(locked.value);
      }
      var existing := LookUpSource(kind, ref);
      if existing.Some? {
        return Failure(AlreadyPosted(existing.value));
      }
      var updated := WithDeltas(postings, deltas);
      if updated.None? {
        return Failure(InsufficientFunds);
      }
      accounts := updated.value;
      entries := entries + [Entry(kind, asset, ref, postings, reverses)];
      return Success(|entries| - 1);
    }

    /** Sums the postings per account, refusing a zero posting before an unbalanced list. */
    static method Aggregate(postings: seq<Posting>) returns (r: Result<map<int, int>, LedgerError>)
      ensures (exists p :: p in postings && p.amount == 0) ==> r == Failure(ZeroPosting)
      ensures !(exists p :: p in postings && p.amount == 0) && Total(postings) != 0 ==> r == Failure(UnbalancedEntry)
      ensures !(exists p :: p in postings && p.amount == 0) && Total(postings) == 0 ==>
        r.Success? && forall id :: Delta(postings, id) == if id in r.value then r.value[id] else 0
    {
      var deltas: map<int, int> := map[];
      var total := 0;
      for i := 0 to |postings|
        invariant forall k :: 0 <= k < i ==> postings[k].amount != 0
        invariant forall id :: (if id in deltas then deltas[id] else 0) == Delta(postings[..i], id)
        invariant total == Total(postings[..i])
      {
        var p := postings[i];
        if p.amount == 0 {
          assert p in postings;
          return Failure(ZeroPosting);
        }
        assert postings[..i + 1] == postings[..i] + [p];
        forall id ensures Delta(postings[..i + 1], id) == Delta(postings[..i], id) + AmountFor(id)(p) {
          SumAppend(postings[..i], p, AmountFor(id));
        }
        SumAppend(postings[..i], p, Amount());
        deltas := deltas[p.account := (if p.account in deltas then deltas[p.account] else 0) + p.amount];
        total := total + p.amount;
      }
      assert postings[..|postings|] == postings;
      return if total != 0 then Failure(UnbalancedEntry) else Success(deltas);
    }

    /** Every account must exist before any of them is compared with the entry's asset. */
    method LockAccounts(postings: seq<Posting>, asset: string) returns (refusal: Option<LedgerError>)
      ensures (exists p :: p in postings && !ValidId(accounts, p.account)) ==> refusal == Some(AccountNotFound)
      ensures !(exists p :: p in postings && !ValidId(accounts, p.account)) ==>
        refusal == if exists p :: p in postings && accounts[p.account].key.asset != asset
                   then Some(AssetMismatch) else None
    {
      for i := 0 to |postings|
        invariant forall k :: 0 <= k < i ==> ValidId(accounts, postings[k].account)
      {
        if !ValidId(accounts, postings[i].account) {
          assert postings[i] in postings;
          return Some(AccountNotFound);
        }
      }
      for i := 0 to |postings|
        invariant forall k :: 0 <= k < i ==> accounts[postings[k].account].key.asset == asset
      {
        if accounts[postings[i].account].key.asset != asset {
          assert postings[i] in postings;
          return Some(AssetMismatch);
        }
      }
      return None;
    }

    method LookUpSource(kind: EntryKind, ref: SourceRef) returns (r: Option<nat>)
      ensures r == FindEntry(entries, kind, ref)
    {
      var k := |entries|;
      assert entries[..k] == entries;
      while k > 0
        invariant 0 <= k <= |entries|
        invariant FindEntry(entries, kind, ref) == FindEntry(entries[..k], kind, ref)
      {
        k := k - 1;
        assert entries[..k + 1][..k] == entries[..k];
        if entries[k].kind == kind && entries[k].ref == ref {
          return Some(k);
        }
      }
      return None;
    }

    /** The account rows after the deltas, or None when a balance CHECK rejects one of them. */
    method WithDeltas(ghost postings: seq<Posting>, deltas: map<int, int>) returns (r: Option<seq<Account>>)
      requires forall id :: Delta(postings, id) == if id in deltas then deltas[id] else 0
      ensures r == if exists i :: 0 <= i < |accounts| && Delta(postings, i) != 0
                       && !SignOk(accounts[i].key.kind, accounts[i].balance + Delta(postings, i))
                   then None else Some(Moved(accounts, postings))
    {
      var updated := accounts;
      for id := 0 to |accounts|
        invariant |updated| == |accounts|
        invariant forall i :: 0 <= i < id ==> updated[i] == Account(accounts[i].key, accounts[i].balance + Delta(postings, i))
        invariant forall i :: id <= i < |accounts| ==> updated[i] == accounts[i]
        invariant forall i :: 0 <= i < id && Delta(postings, i) != 0 ==>
          SignOk(accounts[i].key.kind, accounts[i].balance + Delta(postings, i))
      {
        if id in deltas && deltas[id] != 0 {
          var balance := accounts[id].balance + deltas[id];
          if !SignOk(accounts[id].key.kind, balance) {
            assert Delta(postings, id) != 0;
            return None;
          }
          updated := updated[id := Account(accounts[id].key, balance)];
        }
      }
      assert updated == Moved(accounts, postings);
      return Some(updated);
    }
  }
}
