/** The independent checker of the books, and why it accepts every ledger that
    `post_entry` can produce. */
module LedgerChecker {
  import opened Wrappers
  import opened Sums
  import opened Ledger

  datatype BalanceDrift = BalanceDrift(account: nat, materialized: int, derived: int)

  datatype EntryImbalance = EntryImbalance(entry: nat, total: int)

  /** Per-asset view of the books, in human-facing signs. */
  datatype CustodyReport = CustodyReport(custody: int, userAvailable: int, userHold: int, feeIncome: int,
                                         networkFeeExpense: int, external: int, userDeficit: int, residual: int)

  datatype Violation =
    | UnbalancedEntriesFound(imbalances: seq<EntryImbalance>)
    | BalancesDrifted(drifts: seq<BalanceDrift>)
    | AssetsNotZero(assets: set<string>)

  function DerivedBalances(b: Book): map<nat, int> {
    map id: nat | id < |b.accounts| :: Derived(b.entries, id)
  }

  /** Drifts among the first `n` accounts. */
  function BalanceDrifts(b: Book, n: nat): (r: seq<BalanceDrift>)
    requires n <= |b.accounts|
    ensures r == [] <==> forall i :: 0 <= i < n ==> b.accounts[i].balance == Derived(b.entries, i)
  {
    if n == 0 then []
    else
      var derived := DerivedBalances(b)[n - 1];
      var balance := b.accounts[n - 1].balance;
      BalanceDrifts(b, n - 1) + if balance != derived then [BalanceDrift(n - 1, balance, derived)] else []
  }

  /** Imbalances among the first `n` entries. */
  function UnbalancedEntries(b: Book, n: nat): (r: seq<EntryImbalance>)
    requires n <= |b.entries|
    ensures r == [] <==> forall k :: 0 <= k < n ==> Total(b.entries[k].postings) == 0
  {
    if n == 0 then []
    else
      var total := Total(b.entries[n - 1].postings);
      UnbalancedEntries(b, n - 1) + if total != 0 then [EntryImbalance(n - 1, total)] else []
  }

  function OfAsset(asset: string): AccountKey -> bool {
    (key: AccountKey) => key.asset == asset
  }

  function OfKind(asset: string, kind: AccountKind): AccountKey -> bool {
    (key: AccountKey) => key.asset == asset && key.kind == kind
  }

  function KindSum(accounts: seq<Account>, asset: string, kind: AccountKind): int {
    SelSum(accounts, OfKind(asset, kind))
  }

  /** What a custody report says about the account rows. */
  ghost predicate Reports(r: CustodyReport, accounts: seq<Account>, asset: string) {
    && r.custody == KindSum(accounts, asset, HotWallet) + KindSum(accounts, asset, PayoutsInFlight)
    && r.userAvailable == -KindSum(accounts, asset, UserAvailable)
    && r.userHold == -KindSum(accounts, asset, UserHold)
    && r.feeIncome == -KindSum(accounts, asset, FeeIncome)
    && r.networkFeeExpense == KindSum(accounts, asset, NetworkFeeExpense)
    && r.external == -KindSum(accounts, asset, External)
    && r.userDeficit == KindSum(accounts, asset, UserDeficit)
    && r.residual == SelSum(accounts, OfAsset(asset))
  }

  function Raw(totals: map<(string, AccountKind), int>, asset: string, kind: AccountKind): int {
    if (asset, kind) in totals then totals[(asset, kind)] else 0
  }

  lemma SelStep(accounts: seq<Account>, n: nat, sel: AccountKey -> bool)
    requires n < |accounts|
    ensures SelSum(accounts[..n + 1], sel)
         == SelSum(accounts[..n], sel) + if sel(accounts[n].key) then accounts[n].balance else 0
  {
    assert accounts[..n + 1] == accounts[..n] + [accounts[n]];
    SumAppend(accounts[..n], accounts[n], Selected(sel));
  }

  /** The eight kinds partition an asset's accounts. */
  lemma {:induction false} KindsPartition(accounts: seq<Account>, asset: string)
    ensures SelSum(accounts, OfAsset(asset))
         == KindSum(accounts, asset, UserAvailable) + KindSum(accounts, asset, UserHold)
          + KindSum(accounts, asset, HotWallet) + KindSum(accounts, asset, PayoutsInFlight)
          + KindSum(accounts, asset, FeeIncome) + KindSum(accounts, asset, NetworkFeeExpense)
          + KindSum(accounts, asset, External) + KindSum(accounts, asset, UserDeficit)
  {
    if accounts != [] {
      var n := |accounts| - 1;
      assert accounts[..n + 1] == accounts;
      KindsPartition(accounts[..n], asset);
      forall kind
        ensures KindSum(accounts, asset, kind)
             == KindSum(accounts[..n], asset, kind) + if OfKind(asset, kind)(accounts[n].key) then accounts[n].balance else 0
      {
        SelStep(accounts, n, OfKind(asset, kind));
      }
      SelStep(accounts, n, OfAsset(asset));
    }
  }

  /** One asset's report, off the totals. */
  method ReportOf(ghost accounts: seq<Account>, totals: map<(string, AccountKind), int>, asset: string) returns (report: CustodyReport)
    requires forall kind :: Raw(totals, asset, kind) == KindSum(accounts, asset, kind)
    ensures Reports(report, accounts, asset)
  {
    hide Raw, KindSum;
    KindsPartition(accounts, asset);
    var residual := Raw(totals, asset, UserAvailable) + Raw(totals, asset, UserHold)
      + Raw(totals, asset, HotWallet) + Raw(totals, asset, PayoutsInFlight)
      + Raw(totals, asset, FeeIncome) + Raw(totals, asset, NetworkFeeExpense)
      + Raw(totals, asset, External) + Raw(totals, asset, UserDeficit);
    return CustodyReport(
      Raw(totals, asset, HotWallet) + Raw(totals, asset, PayoutsInFlight),
      -Raw(totals, asset, UserAvailable), -Raw(totals, asset, UserHold),
      -Raw(totals, asset, FeeIncome), Raw(totals, asset, NetworkFeeExpense),
      -Raw(totals, asset, External), Raw(totals, asset, UserDeficit), residual);
  }

  /** The balances per asset and kind, and the assets there are. */
  method Totals(accounts: seq<Account>) returns (totals: map<(string, AccountKind), int>, assets: set<string>)
    ensures forall asset :: asset in assets <==> exists i :: 0 <= i < |accounts| && accounts[i].key.asset == asset
    ensures forall asset, kind :: Raw(totals, asset, kind) == KindSum(accounts, asset, kind)
  {
    totals, assets := map[], {};
    for i := 0 to |accounts|
      invariant forall asset :: asset in assets <==> exists k :: 0 <= k < i && accounts[k].key.asset == asset
      invariant forall asset, kind :: Raw(totals, asset, kind) == KindSum(accounts[..i], asset, kind)
    {
      var a := accounts[i];
      forall asset, kind
        ensures KindSum(accounts[..i + 1], asset, kind)
             == KindSum(accounts[..i], asset, kind) + if OfKind(asset, kind)(a.key) then a.balance else 0
      {
        SelStep(accounts, i, OfKind(asset, kind));
      }
      totals := totals[(a.key.asset, a.key.kind) := Raw(totals, a.key.asset, a.key.kind) + a.balance];
      assets := assets + {a.key.asset};
    }
    assert accounts[..|accounts|] == accounts;
  }

  method CustodyReports(accounts: seq<Account>) returns (reports: map<string, CustodyReport>)
    ensures forall asset :: asset in reports <==> exists i :: 0 <= i < |accounts| && accounts[i].key.asset == asset
    ensures forall asset :: asset in reports ==> Reports(reports[asset], accounts, asset)
  {
    hide Reports, KindSum;
    var totals, assets := Totals(accounts);
    reports := map[];
    var pending := assets;
    while pending != {}
      invariant pending <= assets
      invariant reports.Keys == assets - pending
      invariant forall asset :: asset in reports ==> Reports(reports[asset], accounts, asset)
    {
      var asset :| asset in pending;
      var report := ReportOf(accounts, totals, asset);
      reports := reports[asset := report];
      pending := pending - {asset};
    }
  }

  ghost predicate EntriesBalance(b: Book) {
    forall k :: 0 <= k < |b.entries| ==> Total(b.entries[k].postings) == 0
  }

  ghost predicate BalancesDerive(b: Book) {
    forall i :: 0 <= i < |b.accounts| ==> b.accounts[i].balance == Derived(b.entries, i)
  }

  ghost predicate AssetsBalance(b: Book) {
    forall i :: 0 <= i < |b.accounts| ==> SelSum(b.accounts, OfAsset(b.accounts[i].key.asset)) == 0
  }

  /** Reports the first kind of violation found, in the order entries, balances, assets. */
  method AssertLedgerConsistent(b: Book) returns (r: Result<(), Violation>)
    ensures r.Success? <==> EntriesBalance(b) && BalancesDerive(b) && AssetsBalance(b)
    ensures r.Failure? && r.error.UnbalancedEntriesFound? <==> !EntriesBalance(b)
    ensures r.Failure? && r.error.BalancesDrifted? <==> EntriesBalance(b) && !BalancesDerive(b)
  {
    var imbalances := UnbalancedEntries(b, |b.entries|);
    if imbalances != [] {
      return Failure(UnbalancedEntriesFound(imbalances));
    }
    var drifts := BalanceDrifts(b, |b.accounts|);
    if drifts != [] {
      return Failure(BalancesDrifted(drifts));
    }
    var off := UnbalancedAssets(b.accounts);
    return if off != {} then Failure(AssetsNotZero(off)) else Success(());
  }

  method UnbalancedAssets(accounts: seq<Account>) returns (off: set<string>)
    ensures off == {} <==> forall i :: 0 <= i < |accounts| ==> SelSum(accounts, OfAsset(accounts[i].key.asset)) == 0
  {
    var reports := CustodyReports(accounts);
    off := set asset | asset in reports && reports[asset].residual != 0;
    forall i | 0 <= i < |accounts|
      ensures accounts[i].key.asset in off <==> SelSum(accounts, OfAsset(accounts[i].key.asset)) != 0
    {
      var asset := accounts[i].key.asset;
      assert asset in reports && Reports(reports[asset], accounts, asset);
    }
    forall asset | asset in off ensures exists i :: 0 <= i < |accounts| && accounts[i].key.asset == asset {
    }
  }

  // -- exchange of summation -------------------------------------------------------

  function EntryHits(accounts: seq<Account>, sel: AccountKey -> bool): Entry -> int {
    (e: Entry) => PostingSum(accounts, e.postings, sel)
  }

  function Unposted(accounts: seq<Account>): seq<Account> {
    seq(|accounts|, i requires 0 <= i < |accounts| => Account(accounts[i].key, 0))
  }

  function Replayed(accounts: seq<Account>, entries: seq<Entry>): seq<Account> {
    if entries == [] then Unposted(accounts)
    else Moved(Replayed(accounts, entries[..|entries| - 1]), entries[|entries| - 1].postings)
  }

  /** Replaying the journal over zeroed rows gives, row by row, the derived balance and,
      selection by selection, the sum of what each entry posted to it. */
  lemma {:induction false} ReplaySums(accounts: seq<Account>, entries: seq<Entry>, sel: AccountKey -> bool)
    requires forall k :: 0 <= k < |entries| ==> forall p :: p in entries[k].postings ==> ValidId(accounts, p.account)
    ensures |Replayed(accounts, entries)| == |accounts|
    ensures forall i :: 0 <= i < |accounts| ==> Replayed(accounts, entries)[i] == Account(accounts[i].key, Derived(entries, i))
    ensures SelSum(Replayed(accounts, entries), sel) == Sum(entries, EntryHits(accounts, sel))
  {
    if entries == [] {
      SumSame(Unposted(accounts), Selected(sel), Selected(_ => false));
      SelNone(Unposted(accounts), _ => false);
    } else {
      var n := |entries| - 1;
      ReplaySums(accounts, entries[..n], sel);
      var before := Replayed(accounts, entries[..n]);
      assert forall p :: p in entries[n].postings ==> ValidId(before, p.account);
      MovedSel(before, entries[n].postings, sel);
      SumSame(entries[n].postings, Hits(before, sel), Hits(accounts, sel));
    }
  }

  /** Summed by account or by entry, any selection of accounts gives the same number. */
  lemma SumsExchange(b: Book, sel: AccountKey -> bool)
    requires BalancesDerive(b)
    requires forall k :: 0 <= k < |b.entries| ==> EntryOk(b.accounts, b.entries[k])
    ensures SelSum(b.accounts, sel) == Sum(b.entries, EntryHits(b.accounts, sel))
  {
    forall k | 0 <= k < |b.entries| ensures forall p :: p in b.entries[k].postings ==> ValidId(b.accounts, p.account) {
      assert EntryOk(b.accounts, b.entries[k]);
    }
    ReplaySums(b.accounts, b.entries, sel);
    assert Replayed(b.accounts, b.entries) == b.accounts;
  }

  lemma {:induction false} SingleAssetHits(accounts: seq<Account>, ps: seq<Posting>, asset: string, own: string)
    requires forall p :: p in ps ==> ValidId(accounts, p.account) && accounts[p.account].key.asset == own
    ensures PostingSum(accounts, ps, OfAsset(asset)) == if own == asset then Total(ps) else 0
  {
    if ps != [] {
      var n := |ps| - 1;
      assert ps[n] in ps && forall p :: p in ps[..n] ==> p in ps;
      SingleAssetHits(accounts, ps[..n], asset, own);
    }
  }

  /** The third check follows from the first two once every entry stays inside one asset. */
  lemma AssetCheckFollows(b: Book)
    requires forall k :: 0 <= k < |b.entries| ==> EntryOk(b.accounts, b.entries[k])
    requires BalancesDerive(b)
    ensures AssetsBalance(b)
  {
    forall i | 0 <= i < |b.accounts| ensures SelSum(b.accounts, OfAsset(b.accounts[i].key.asset)) == 0 {
      var sel := OfAsset(b.accounts[i].key.asset);
      SumsExchange(b, sel);
      forall k | 0 <= k < |b.entries| ensures EntryHits(b.accounts, sel)(b.entries[k]) == 0 {
        assert EntryOk(b.accounts, b.entries[k]);
        SingleAssetHits(b.accounts, b.entries[k].postings, b.accounts[i].key.asset, b.entries[k].asset);
      }
      SumNonNegative(b.entries, EntryHits(b.accounts, sel));
      SumNegates(b.entries, EntryHits(b.accounts, sel), EntryHits(b.accounts, sel));
    }
  }

  // -- every run ---------------------------------------------------------------------

  datatype LedgerCall = CallProvision(key: AccountKey) | CallPost(entry: Entry)

  /** One call: a success commits its book, a failure commits nothing. */
  function After(b: Book, call: LedgerCall): Book {
    match call
    case CallProvision(key) => (match Provision(b, key) case Success((b', _)) => b' case Failure(_) => b)
    case CallPost(e) => (match Post(b, e) case Success(b') => b' case Failure(_) => b)
  }

  function RunCalls(calls: seq<LedgerCall>): Book {
    if calls == [] then EMPTY_BOOK else After(RunCalls(calls[..|calls| - 1]), calls[|calls| - 1])
  }

  /** After any sequence of successful and failing calls the books are consistent, all three
      checks pass, and nothing already written was changed by the last call. */
  lemma {:induction false} CheckerAcceptsEveryRun(calls: seq<LedgerCall>)
    ensures Consistent(RunCalls(calls))
    ensures EntriesBalance(RunCalls(calls)) && BalancesDerive(RunCalls(calls)) && AssetsBalance(RunCalls(calls))
    ensures calls != [] ==> Extends(RunCalls(calls[..|calls| - 1]), RunCalls(calls))
  {
    if calls != [] {
      var n := |calls| - 1;
      CheckerAcceptsEveryRun(calls[..n]);
      var b := RunCalls(calls[..n]);
      match calls[n] {
        case CallProvision(key) =>
          if Provision(b, key).Success? {
            EnsuredKeepsConsistent(b, key);
          }
        case CallPost(e) =>
          if Post(b, e).Success? {
            PostKeepsConsistent(b, e);
          }
      }
    }
    var b := RunCalls(calls);
    forall k | 0 <= k < |b.entries| ensures Total(b.entries[k].postings) == 0 {
      assert EntryOk(b.accounts, b.entries[k]);
    }
    AssetCheckFollows(b);
  }
}
