/** The idempotency protocol as a step system: any number of concurrent, retried, taken-over and
    crashed attempts. A step is one committed transaction; the row lock on the key's record
    orders the transactions that touch it. */
module ExactlyOnce {
  import opened Wrappers
  import opened Idempotency

  const WITHDRAWALS := "POST /v1/withdrawals"
  const DEPOSITS := "POST /v1/deposits"

  /** Which key created a row. `era` counts the purges of the key so far. */
  datatype Resource = Resource(key: Key, era: nat)

  /** A deposit request between its first commit and its last. */
  datatype Attempt = Attempt(key: Key, era: nat, resource: nat, working: bool)

  /** A claim or a takeover that committed. */
  datatype Win = Win(key: Key, era: nat, at: int)

  /** `withdrawals` and `deposits` say of each row, by its id, which key created it. */
  datatype World = World(table: Table, withdrawals: seq<Resource>, deposits: seq<Resource>, attempts: seq<Attempt>,
                         eras: map<Key, nat>, wins: seq<Win>, clock: int)

  datatype Step =
    | Tick(seconds: nat)
    | PostWithdrawal(key: string, hash: string, answer: Option<Response>)
    | StartDeposit(key: string, hash: string, accepted: bool)
    | FinishDeposit(a: nat, response: Response)
    | LoseAttempt(a: nat)
    | PurgeKeys(ttl: nat)

  function EraOf(w: World, key: Key): nat {
    if key in w.eras then w.eras[key] else 0
  }

  /** The rows that requests to an endpoint created. */
  function RowsOf(w: World, endpoint: string): seq<Resource> {
    if endpoint == WITHDRAWALS then w.withdrawals else w.deposits
  }

  /** The key's row takes the next id of its endpoint. */
  function WithResource(w: World, key: Key): World {
    var row := Resource(key, EraOf(w, key));
    if key.endpoint == WITHDRAWALS then w.(withdrawals := w.withdrawals + [row]) else w.(deposits := w.deposits + [row])
  }

  /** Claim, row and response in one commit, or nothing. */
  function AfterWithdrawal(w: World, key: Key, hash: string, accepted: Option<Response>, stale: nat): World {
    match Begin(w.table, key, hash, w.clock, stale)
    case Success((t, Owned(_, _))) =>
      (match accepted
       case Some(response) =>
         WithResource(w, key).(table := Complete(RecordResource(t, key, |RowsOf(w, key.endpoint)|, w.clock), key, response, w.clock),
                          wins := w.wins + [Win(key, EraOf(w, key), w.clock)])
       case None => w)
    case Success((_, Replayed(_, _))) => w
    case Failure(_) => w
  }

  /** The first commit of a deposit: the claim with its row, or a takeover with the row it finds. */
  function AfterStart(w: World, key: Key, hash: string, accepted: bool, stale: nat): World {
    match Begin(w.table, key, hash, w.clock, stale)
    case Success((t, Owned(reclaimed, owned))) =>
      var won := w.wins + [Win(key, EraOf(w, key), w.clock)];
      if !accepted then w
      else if reclaimed && owned.Some? && owned.value < |RowsOf(w, key.endpoint)| then
        w.(table := t, attempts := w.attempts + [Attempt(key, EraOf(w, key), owned.value, true)], wins := won)
      else
        var id := |RowsOf(w, key.endpoint)|;
        WithResource(w, key).(table := RecordResource(t, key, id, w.clock),
                         attempts := w.attempts + [Attempt(key, EraOf(w, key), id, true)], wins := won)
    case Success((_, Replayed(_, _))) => w
    case Failure(_) => w
  }

  predicate Working(w: World, a: nat) {
    a < |w.attempts| && w.attempts[a].working
  }

  function Next(w: World, step: Step, stale: nat): World {
    match step
    case Tick(seconds) => w.(clock := w.clock + seconds)
    case PostWithdrawal(key, hash, accepted) => AfterWithdrawal(w, Key(key, WITHDRAWALS), hash, accepted, stale)
    case StartDeposit(key, hash, accepted) => AfterStart(w, Key(key, DEPOSITS), hash, accepted, stale)
    case FinishDeposit(a, response) =>
      if Working(w, a) then
        w.(table := Complete(w.table, w.attempts[a].key, response, w.clock),
           attempts := w.attempts[a := w.attempts[a].(working := false)])
      else w
    case LoseAttempt(a) => if Working(w, a) then w.(attempts := w.attempts[a := w.attempts[a].(working := false)]) else w
    case PurgeKeys(ttl) =>
      var kept := PurgeExpired(w.table, w.clock, ttl);
      w.(table := kept,
         eras := map key | key in w.table.Keys + w.eras.Keys ::
                   EraOf(w, key) + if key in w.table && key !in kept then 1 else 0)
  }

  const START := World(map[], [], [], [], map[], [], 0)

  predicate StepAt(worlds: seq<World>, steps: seq<Step>, stale: nat, n: nat)
    requires |worlds| == |steps| + 1 && n < |steps|
  {
    worlds[n + 1] == Next(worlds[n], steps[n], stale)
  }

  /** A run: each world comes from the one before it by one step. */
  predicate Trace(worlds: seq<World>, steps: seq<Step>, stale: nat) {
    && |worlds| == |steps| + 1
    && forall n :: 0 <= n < |steps| ==> StepAt(worlds, steps, stale, n)
  }

  ghost predicate Reachable(w: World, stale: nat) {
    exists worlds, steps :: Trace(worlds, steps, stale) && worlds[0] == START && worlds[|steps|] == w
  }

  // -- the invariant -------------------------------------------------------------------------

  /** Every record names the one row its key created in this era. */
  ghost predicate RecordOk(w: World, key: Key)
    requires key in w.table
  {
    var r := w.table[key];
    && r.resource.Some? && r.resource.value < |RowsOf(w, key.endpoint)|
    && RowsOf(w, key.endpoint)[r.resource.value] == Resource(key, EraOf(w, key))
    && r.updatedAt <= w.clock
    && (r.completed ==> r.response.Some?)
    && (key.endpoint == WITHDRAWALS ==> r.completed)
  }

  /** Everything of a key's current era hangs on its record. */
  predicate EraOk(w: World, key: Key, era: nat) {
    era <= EraOf(w, key) && (key !in w.table ==> era < EraOf(w, key))
  }

  ghost predicate RowsOk(w: World, rows: seq<Resource>) {
    && (forall i, j :: 0 <= i < j < |rows| ==> rows[i] != rows[j])
    && (forall i :: 0 <= i < |rows| ==> EraOk(w, rows[i].key, rows[i].era))
  }

  ghost predicate ResourcesOk(w: World) {
    RowsOk(w, w.withdrawals) && RowsOk(w, w.deposits)
  }

  ghost predicate AttemptsOk(w: World) {
    forall a :: 0 <= a < |w.attempts| ==>
      && w.attempts[a].resource < |w.deposits|
      && w.deposits[w.attempts[a].resource] == Resource(w.attempts[a].key, w.attempts[a].era)
      && w.attempts[a].key.endpoint == DEPOSITS
  }

  ghost predicate WinsOk(w: World, stale: nat) {
    && (forall i, j :: 0 <= i < j < |w.wins| && w.wins[i].key == w.wins[j].key && w.wins[i].era == w.wins[j].era ==>
          w.wins[j].at - w.wins[i].at > stale)
    && (forall i :: 0 <= i < |w.wins| ==> EraOk(w, w.wins[i].key, w.wins[i].era))
    && (forall i :: 0 <= i < |w.wins| && w.wins[i].key in w.table && w.wins[i].era == EraOf(w, w.wins[i].key) ==>
          w.wins[i].at <= w.table[w.wins[i].key].updatedAt)
  }

  ghost predicate RecordsOk(w: World) {
    forall key :: key in w.table ==> RecordOk(w, key)
  }

  ghost predicate Inv(w: World, stale: nat) {
    RecordsOk(w) && ResourcesOk(w) && AttemptsOk(w) && WinsOk(w, stale)
  }

  /** A key is claimed and its row created, in one commit. */
  function Claimed(w: World, key: Key, r: Record, more: seq<Attempt>): World {
    WithResource(w, key).(table := w.table[key := r], attempts := w.attempts + more, wins := w.wins + [Win(key, EraOf(w, key), w.clock)])
  }

  lemma ClaimKeeps(w: World, key: Key, r: Record, more: seq<Attempt>, stale: nat)
    requires Inv(w, stale) && key !in w.table
    requires r.resource == Some(|RowsOf(w, key.endpoint)|) && r.updatedAt == w.clock && (r.completed ==> r.response.Some?)
    requires key.endpoint == WITHDRAWALS ==> r.completed
    requires more == [] || (key.endpoint == DEPOSITS && more == [Attempt(key, EraOf(w, key), |w.deposits|, true)])
    ensures Inv(Claimed(w, key, r, more), stale)
  {
    hide ResourcesOk, AttemptsOk, WinsOk;
    var w' := Claimed(w, key, r, more);
    forall k | k in w'.table ensures RecordOk(w', k) {
      assert k in w.table ==> RecordOk(w, k);
    }
    ClaimedResources(w, key, r, more);
    ClaimedWins(w, key, r, more, stale);
    ClaimedAttempts(w, key, r, more);
  }

  lemma ClaimedResources(w: World, key: Key, r: Record, more: seq<Attempt>)
    requires ResourcesOk(w) && key !in w.table
    ensures ResourcesOk(Claimed(w, key, r, more))
  {
    ClaimedRows(w, key, r, more, w.withdrawals);
    ClaimedRows(w, key, r, more, w.deposits);
  }

  lemma ClaimedRows(w: World, key: Key, r: Record, more: seq<Attempt>, rows: seq<Resource>)
    requires RowsOk(w, rows) && key !in w.table
    ensures RowsOk(Claimed(w, key, r, more), rows) && RowsOk(Claimed(w, key, r, more), rows + [Resource(key, EraOf(w, key))])
  {
    forall i | 0 <= i < |rows|
      ensures EraOk(Claimed(w, key, r, more), rows[i].key, rows[i].era) && rows[i] != Resource(key, EraOf(w, key))
    {
      assert EraOk(w, rows[i].key, rows[i].era);
    }
  }

  lemma ClaimedAttempts(w: World, key: Key, r: Record, more: seq<Attempt>)
    requires AttemptsOk(w)
    requires more == [] || (key.endpoint == DEPOSITS && more == [Attempt(key, EraOf(w, key), |w.deposits|, true)])
    ensures AttemptsOk(Claimed(w, key, r, more))
  {
  }

  lemma ClaimedWins(w: World, key: Key, r: Record, more: seq<Attempt>, stale: nat)
    requires WinsOk(w, stale) && key !in w.table && r.updatedAt == w.clock
    ensures WinsOk(Claimed(w, key, r, more), stale)
  {
    var w' := Claimed(w, key, r, more);
    forall i | 0 <= i < |w'.wins|
      ensures EraOk(w', w'.wins[i].key, w'.wins[i].era)
      ensures i < |w.wins| ==> !(w.wins[i].key == key && w.wins[i].era == EraOf(w, key))
    {
      assert i < |w.wins| ==> EraOk(w, w.wins[i].key, w.wins[i].era);
    }
  }

  /** A stale claim is taken over, with the row it left behind. */
  function TakenOver(w: World, key: Key, attempt: Attempt): World
    requires key in w.table
  {
    w.(table := w.table[key := w.table[key].(updatedAt := w.clock)], attempts := w.attempts + [attempt],
       wins := w.wins + [Win(key, EraOf(w, key), w.clock)])
  }

  lemma TakeoverKeeps(w: World, key: Key, id: nat, stale: nat)
    requires Inv(w, stale) && key in w.table && key.endpoint == DEPOSITS && Stale(w.table[key], w.clock, stale)
    requires w.table[key].resource == Some(id)
    ensures Inv(TakenOver(w, key, Attempt(key, EraOf(w, key), id, true)), stale)
  {
    hide ResourcesOk, AttemptsOk, WinsOk;
    var w' := TakenOver(w, key, Attempt(key, EraOf(w, key), id, true));
    assert RecordOk(w, key);
    forall k | k in w'.table ensures RecordOk(w', k) {
      assert RecordOk(w, k);
    }
    SameResources(w, w');
    TakenOverAttempts(w, key, id);
    TakenOverWins(w, key, Attempt(key, EraOf(w, key), id, true), stale);
  }

  lemma SameResources(w: World, w': World)
    requires ResourcesOk(w) && w'.withdrawals == w.withdrawals && w'.deposits == w.deposits
    requires w'.eras == w.eras && w'.table.Keys == w.table.Keys
    ensures ResourcesOk(w')
  {
    forall key, era: nat | EraOk(w, key, era) ensures EraOk(w', key, era) {
    }
  }

  lemma TakenOverAttempts(w: World, key: Key, id: nat)
    requires AttemptsOk(w) && key in w.table && RecordOk(w, key) && key.endpoint == DEPOSITS && w.table[key].resource == Some(id)
    ensures AttemptsOk(TakenOver(w, key, Attempt(key, EraOf(w, key), id, true)))
  {
  }

  lemma TakenOverWins(w: World, key: Key, attempt: Attempt, stale: nat)
    requires WinsOk(w, stale) && key in w.table && Stale(w.table[key], w.clock, stale)
    ensures WinsOk(TakenOver(w, key, attempt), stale)
  {
    var w' := TakenOver(w, key, attempt);
    forall i | 0 <= i < |w'.wins| ensures EraOk(w', w'.wins[i].key, w'.wins[i].era) {
      assert i < |w.wins| ==> EraOk(w, w.wins[i].key, w.wins[i].era);
    }
  }

  /** Records may be completed and moved forward in time, attempts may end. */
  ghost predicate Touched(w: World, w': World) {
    && w'.withdrawals == w.withdrawals && w'.deposits == w.deposits && w'.eras == w.eras && w'.wins == w.wins && w.clock <= w'.clock
    && w'.table.Keys == w.table.Keys && |w'.attempts| == |w.attempts|
    && (forall a :: 0 <= a < |w.attempts| ==> w'.attempts[a] == w.attempts[a].(working := w'.attempts[a].working))
    && (forall key :: key in w.table ==> RecordTouched(w.table[key], w'.table[key], w'.clock))
  }

  predicate RecordTouched(r: Record, r': Record, clock: int) {
    && r'.resource == r.resource && r.updatedAt <= r'.updatedAt && (r'.updatedAt <= clock || r' == r)
    && (r.completed ==> r'.completed) && (r'.completed ==> r'.response.Some? || r' == r)
  }

  lemma TouchedKeeps(w: World, w': World, stale: nat)
    requires Inv(w, stale) && Touched(w, w')
    ensures Inv(w', stale)
  {
    hide ResourcesOk, AttemptsOk, WinsOk;
    forall k | k in w'.table ensures RecordOk(w', k) {
      assert RecordOk(w, k) && RecordTouched(w.table[k], w'.table[k], w'.clock);
    }
    SameResources(w, w');
    TouchedAttempts(w, w');
    TouchedWins(w, w', stale);
  }

  lemma TouchedAttempts(w: World, w': World)
    requires AttemptsOk(w) && Touched(w, w')
    ensures AttemptsOk(w')
  {
    forall a | 0 <= a < |w'.attempts|
      ensures w'.attempts[a].resource == w.attempts[a].resource && w'.attempts[a].key == w.attempts[a].key && w'.attempts[a].era == w.attempts[a].era
    {
      assert w'.attempts[a] == w.attempts[a].(working := w'.attempts[a].working);
    }
  }

  lemma TouchedWins(w: World, w': World, stale: nat)
    requires WinsOk(w, stale) && Touched(w, w')
    ensures WinsOk(w', stale)
  {
    forall i | 0 <= i < |w'.wins|
      ensures EraOk(w', w'.wins[i].key, w'.wins[i].era)
      ensures w'.wins[i].key in w'.table && w'.wins[i].era == EraOf(w', w'.wins[i].key) ==>
        w'.wins[i].at <= w'.table[w'.wins[i].key].updatedAt
    {
      assert EraOk(w, w.wins[i].key, w.wins[i].era);
      if w.wins[i].key in w.table {
        assert RecordTouched(w.table[w.wins[i].key], w'.table[w.wins[i].key], w'.clock);
      }
    }
  }

  lemma WithdrawalKeeps(w: World, key: Key, hash: string, accepted: Option<Response>, stale: nat)
    requires Inv(w, stale) && key.endpoint == WITHDRAWALS
    ensures Inv(AfterWithdrawal(w, key, hash, accepted, stale), stale)
  {
    hide Inv, Claimed;
    if key in w.table {
      WithdrawalRecord(w, key, stale);
    } else if accepted.Some? && Begin(w.table, key, hash, w.clock, stale).Success? {
      ClaimKeeps(w, key, Record(hash, true, Some(|w.withdrawals|), accepted, w.clock, w.clock), [], stale);
      WithdrawalClaims(w, key, hash, accepted.value, stale);
    }
  }

  lemma WithdrawalRecord(w: World, key: Key, stale: nat)
    requires Inv(w, stale) && key in w.table && key.endpoint == WITHDRAWALS
    ensures w.table[key].completed
  {
    assert RecordOk(w, key);
  }

  lemma WithdrawalClaims(w: World, key: Key, hash: string, response: Response, stale: nat)
    requires key !in w.table && key.endpoint == WITHDRAWALS && ValidKey(key.key)
    ensures AfterWithdrawal(w, key, hash, Some(response), stale)
         == Claimed(w, key, Record(hash, true, Some(|w.withdrawals|), Some(response), w.clock, w.clock), [])
  {
    hide ValidKey;
    var r := Record(hash, true, Some(|w.withdrawals|), Some(response), w.clock, w.clock);
    assert AfterWithdrawal(w, key, hash, Some(response), stale).table == w.table[key := r];
  }

  lemma StartKeeps(w: World, key: Key, hash: string, accepted: bool, stale: nat)
    requires Inv(w, stale) && key.endpoint == DEPOSITS
    ensures Inv(AfterStart(w, key, hash, accepted, stale), stale)
  {
    hide Inv, Claimed, TakenOver;
    if key in w.table {
      DepositRecord(w, key, stale);
      if accepted && w.table[key].hash == hash && Stale(w.table[key], w.clock, stale) && ValidKey(key.key) {
        TakeoverKeeps(w, key, w.table[key].resource.value, stale);
        StartTakesOver(w, key, hash, stale);
      }
    } else if accepted && ValidKey(key.key) {
      ClaimKeeps(w, key, Record(hash, false, Some(|w.deposits|), None, w.clock, w.clock),
                 [Attempt(key, EraOf(w, key), |w.deposits|, true)], stale);
      StartClaims(w, key, hash, stale);
    }
  }

  lemma DepositRecord(w: World, key: Key, stale: nat)
    requires Inv(w, stale) && key in w.table && key.endpoint == DEPOSITS
    ensures w.table[key].resource.Some? && w.table[key].resource.value < |w.deposits|
  {
    assert RecordOk(w, key);
  }

  lemma StartTakesOver(w: World, key: Key, hash: string, stale: nat)
    requires key in w.table && key.endpoint == DEPOSITS && w.table[key].hash == hash && Stale(w.table[key], w.clock, stale) && ValidKey(key.key)
    requires w.table[key].resource.Some? && w.table[key].resource.value < |w.deposits|
    ensures AfterStart(w, key, hash, true, stale)
         == TakenOver(w, key, Attempt(key, EraOf(w, key), w.table[key].resource.value, true))
  {
    hide ValidKey;
  }

  lemma StartClaims(w: World, key: Key, hash: string, stale: nat)
    requires key !in w.table && key.endpoint == DEPOSITS && ValidKey(key.key)
    ensures AfterStart(w, key, hash, true, stale)
         == Claimed(w, key, Record(hash, false, Some(|w.deposits|), None, w.clock, w.clock),
                    [Attempt(key, EraOf(w, key), |w.deposits|, true)])
  {
    hide ValidKey;
    var r := Record(hash, false, Some(|w.deposits|), None, w.clock, w.clock);
    assert AfterStart(w, key, hash, true, stale).table == w.table[key := r];
  }

  lemma PurgeKeeps(w: World, ttl: nat, stale: nat)
    requires Inv(w, stale)
    ensures Inv(Next(w, PurgeKeys(ttl), stale), stale)
  {
    var w' := Next(w, PurgeKeys(ttl), stale);
    forall k | k in w'.table ensures RecordOk(w', k) {
      assert RecordOk(w, k);
    }
    forall k: Key, era: nat | EraOk(w, k, era) ensures EraOk(w', k, era) {
      assert k in w.table ==> RecordOk(w, k);
    }
  }

  lemma FinishKeeps(w: World, a: nat, response: Response, stale: nat)
    requires Inv(w, stale) && Working(w, a)
    ensures Inv(Next(w, FinishDeposit(a, response), stale), stale)
  {
    hide ResourcesOk, AttemptsOk, WinsOk;
    var w' := Next(w, FinishDeposit(a, response), stale);
    forall k | k in w.table ensures RecordTouched(w.table[k], w'.table[k], w'.clock) {
      assert RecordOk(w, k);
    }
    TouchedKeeps(w, w', stale);
  }

  lemma NextKeeps(w: World, step: Step, stale: nat)
    requires Inv(w, stale)
    ensures Inv(Next(w, step, stale), stale)
  {
    match step {
      case PostWithdrawal(key, hash, answer) =>
        hide Inv, AfterWithdrawal;
        WithdrawalKeeps(w, Key(key, WITHDRAWALS), hash, answer, stale);
      case StartDeposit(key, hash, accepted) =>
        hide Inv, AfterStart;
        StartKeeps(w, Key(key, DEPOSITS), hash, accepted, stale);
      case PurgeKeys(ttl) =>
        hide Inv;
        PurgeKeeps(w, ttl, stale);
      case FinishDeposit(a, response) =>
        hide Inv, Complete;
        if Working(w, a) {
          FinishKeeps(w, a, response, stale);
        }
      case _ => QuietKeeps(w, step, stale);
    }
  }

  lemma QuietKeeps(w: World, step: Step, stale: nat)
    requires Inv(w, stale) && (step.Tick? || step.LoseAttempt?)
    ensures Inv(Next(w, step, stale), stale)
  {
    hide Inv;
    TouchedKeeps(w, Next(w, step, stale), stale);
  }

  lemma {:induction false} TraceKeeps(worlds: seq<World>, steps: seq<Step>, stale: nat, n: nat)
    requires Trace(worlds, steps, stale) && n <= |steps| && Inv(worlds[0], stale)
    ensures Inv(worlds[n], stale)
  {
    hide Inv, Next;
    if n > 0 {
      TraceKeeps(worlds, steps, stale, n - 1);
      assert StepAt(worlds, steps, stale, n - 1);
      NextKeeps(worlds[n - 1], steps[n - 1], stale);
    }
  }

  lemma StartKept(stale: nat)
    ensures Inv(START, stale)
  {
  }

  lemma ReachableKeeps(w: World, stale: nat)
    requires Reachable(w, stale)
    ensures Inv(w, stale)
  {
    hide StepAt, Inv;
    StartKept(stale);
    var worlds, steps :| Trace(worlds, steps, stale) && worlds[0] == START && worlds[|steps|] == w;
    TraceKeeps(worlds, steps, stale, |steps|);
  }

  // -- what that gives the caller ----------------------------------------------------------------

  /** No two rows of one key stem from the same era of it, and a key without a record has no row
      in its current era. */
  predicate OneRowPerKey(w: World, rows: seq<Resource>) {
    && (forall i, j :: 0 <= i < j < |rows| && rows[i].key == rows[j].key ==> rows[i].era != rows[j].era)
    && (forall i :: 0 <= i < |rows| && rows[i].key !in w.table ==> rows[i].era < EraOf(w, rows[i].key))
  }

  /** Between purges, however many attempts carry one key, they commit at most one withdrawal or
      deposit row, and a committed record always names it. */
  lemma AtMostOneResourcePerKey(w: World, stale: nat)
    requires Reachable(w, stale)
    ensures forall key :: key in w.table ==> RecordOk(w, key)
    ensures OneRowPerKey(w, w.withdrawals) && OneRowPerKey(w, w.deposits)
  {
    hide Reachable;
    ReachableKeeps(w, stale);
  }

  /** Claims and takeovers of one key are further apart than the stale window, so each window
      has one winner. */
  lemma OneWinnerPerWindow(w: World, stale: nat)
    requires Reachable(w, stale)
    ensures forall i, j :: 0 <= i < j < |w.wins| && w.wins[i].key == w.wins[j].key && w.wins[i].era == w.wins[j].era ==>
      w.wins[j].at - w.wins[i].at > stale
  {
    hide Reachable;
    ReachableKeeps(w, stale);
  }

  /** A completed key replays its stored response to the same body and refuses any other body,
      and neither changes anything. */
  lemma CompletedReplays(w: World, key: Key, hash: string, stale: nat)
    requires Reachable(w, stale) && key in w.table && w.table[key].completed && ValidKey(key.key)
    ensures w.table[key].response.Some?
    ensures Begin(w.table, key, hash, w.clock, stale)
         == if hash == w.table[key].hash then Success((w.table, Replayed(w.table[key].response.value, w.table[key].resource)))
            else Failure(Mismatch)
    ensures forall accepted :: AfterWithdrawal(w, key, hash, accepted, stale) == w
    ensures forall accepted :: AfterStart(w, key, hash, accepted, stale) == w
  {
    hide Reachable;
    ReachableKeeps(w, stale);
    assert RecordOk(w, key);
  }

  /** Until it is purged, a record keeps its body hash and its row, and stays completed. Its
      stored response changes exactly when an attempt that is still working on the key finishes
      with another one. */
  lemma RecordsAreStable(w: World, step: Step, stale: nat, key: Key)
    requires Reachable(w, stale) && key in w.table && key in Next(w, step, stale).table && w.table[key].completed
    ensures var r, r' := w.table[key], Next(w, step, stale).table[key];
      && r'.hash == r.hash && r'.resource == r.resource && r'.completed
      && (r'.response != r.response <==>
            step.FinishDeposit? && Working(w, step.a) && w.attempts[step.a].key == key && Some(step.response) != r.response)
  {
    hide Reachable, Inv, AfterWithdrawal, AfterStart, PurgeExpired;
    ReachableKeeps(w, stale);
    match step {
      case PostWithdrawal(k, hash, accepted) => WithdrawalSameOrNewer(w, Key(k, WITHDRAWALS), hash, accepted, stale, key);
      case StartDeposit(k, hash, accepted) => StartSameOrNewer(w, Key(k, DEPOSITS), hash, accepted, stale, key);
      case PurgeKeys(_) => PurgedOrSame(w, step, stale, key);
      case _ =>
    }
  }

  /** An in-progress record keeps its row too, through any number of takeovers. */
  lemma TakeoversKeepTheResource(w: World, step: Step, stale: nat, key: Key)
    requires Reachable(w, stale) && key in w.table && key in Next(w, step, stale).table
    ensures var r, r' := w.table[key], Next(w, step, stale).table[key]; r'.hash == r.hash && r'.resource == r.resource
  {
    hide Reachable, Inv, AfterWithdrawal, AfterStart, PurgeExpired;
    ReachableKeeps(w, stale);
    match step {
      case PostWithdrawal(k, hash, accepted) => WithdrawalSameOrNewer(w, Key(k, WITHDRAWALS), hash, accepted, stale, key);
      case StartDeposit(k, hash, accepted) => StartSameOrNewer(w, Key(k, DEPOSITS), hash, accepted, stale, key);
      case PurgeKeys(_) => PurgedOrSame(w, step, stale, key);
      case _ =>
    }
  }

  /** A record either stood there all along, or was written later. */
  predicate SameOrNewer(w: World, w': World, key: Key) {
    key in w'.table ==>
      || (key in w.table && w'.table[key].hash == w.table[key].hash && w'.table[key].resource == w.table[key].resource)
      || w'.table[key].updatedAt >= w.clock
  }

  lemma StepSameOrNewer(w: World, step: Step, stale: nat, key: Key)
    requires Inv(w, stale)
    ensures SameOrNewer(w, Next(w, step, stale), key) && w.clock <= Next(w, step, stale).clock
    ensures key in w.table && key in Next(w, step, stale).table ==> w.table[key].updatedAt <= Next(w, step, stale).table[key].updatedAt
  {
    hide Inv, AfterWithdrawal, AfterStart, PurgeExpired;
    match step {
      case PostWithdrawal(k, hash, accepted) => WithdrawalSameOrNewer(w, Key(k, WITHDRAWALS), hash, accepted, stale, key);
      case StartDeposit(k, hash, accepted) => StartSameOrNewer(w, Key(k, DEPOSITS), hash, accepted, stale, key);
      case FinishDeposit(_, _) => RecordIsPast(w, stale, key);
      case PurgeKeys(_) => PurgedOrSame(w, step, stale, key);
      case _ =>
    }
  }

  lemma RecordIsPast(w: World, stale: nat, key: Key)
    requires Inv(w, stale)
    ensures key in w.table ==> w.table[key].updatedAt <= w.clock
  {
    assert key in w.table ==> RecordOk(w, key);
  }

  lemma PurgedOrSame(w: World, step: Step, stale: nat, key: Key)
    requires step.PurgeKeys?
    ensures var w' := Next(w, step, stale); key in w'.table ==> key in w.table && w'.table[key] == w.table[key]
  {
  }

  lemma WithdrawalSameOrNewer(w: World, k: Key, hash: string, accepted: Option<Response>, stale: nat, key: Key)
    requires Inv(w, stale) && k.endpoint == WITHDRAWALS
    ensures var w' := AfterWithdrawal(w, k, hash, accepted, stale);
      w'.clock == w.clock && (key in w.table ==> key in w'.table && w'.table[key] == w.table[key])
      && (key !in w.table && key in w'.table ==> w'.table[key].updatedAt == w.clock)
  {
    hide Inv, ValidKey;
    if k in w.table {
      WithdrawalRecord(w, k, stale);
    }
  }

  predicate SameOrTakenOver(r: Record, r': Record, at: int) {
    r' == r || (!r.completed && r' == r.(updatedAt := at))
  }

  lemma StartSameOrNewer(w: World, k: Key, hash: string, accepted: bool, stale: nat, key: Key)
    requires Inv(w, stale) && k.endpoint == DEPOSITS
    ensures var w' := AfterStart(w, k, hash, accepted, stale);
      && w'.clock == w.clock
      && (key in w.table ==> key in w'.table && SameOrTakenOver(w.table[key], w'.table[key], w.clock))
      && (key !in w.table && key in w'.table ==> w'.table[key].updatedAt == w.clock)
    ensures key in w.table ==> w.table[key].updatedAt <= w.clock
  {
    hide ValidKey, ResourcesOk, AttemptsOk, WinsOk;
    assert k in w.table ==> RecordOk(w, k);
    assert key in w.table ==> RecordOk(w, key);
  }

  /** So a claim that reads a record, and finds a stale one under its key when it takes over, has
      found the record it read. */
  lemma {:induction false} ClaimsReadOneRecord(worlds: seq<World>, steps: seq<Step>, stale: nat, m: nat, n: nat, key: Key, now: int)
    requires Trace(worlds, steps, stale) && worlds[0] == START && m <= n <= |steps| && now <= worlds[m].clock
    ensures SameOrNewer(worlds[m], worlds[n], key) && worlds[m].clock <= worlds[n].clock
    ensures forall t :: SameRecord(View(t, worlds[m].table, worlds[n].table), key, now, stale)
  {
    hide Next, Inv;
    if m < n {
      ClaimsReadOneRecord(worlds, steps, stale, m, n - 1, key, now);
      StartKept(stale);
      TraceKeeps(worlds, steps, stale, n - 1);
      assert StepAt(worlds, steps, stale, n - 1);
      StepSameOrNewer(worlds[n - 1], steps[n - 1], stale, key);
    }
  }

  /** A completed key that nobody works on any more. Every completed withdrawal is one. */
  predicate Quiet(w: World, key: Key) {
    key in w.table && w.table[key].completed && forall a :: 0 <= a < |w.attempts| && w.attempts[a].working ==> w.attempts[a].key != key
  }

  lemma WithdrawalsAreQuiet(w: World, stale: nat, key: Key)
    requires Reachable(w, stale) && key in w.table && key.endpoint == WITHDRAWALS
    ensures Quiet(w, key)
  {
    hide Reachable;
    ReachableKeeps(w, stale);
    assert RecordOk(w, key);
  }

  /** From then on, until it is purged, every retry is answered with the same response. */
  lemma {:induction false} OneStoredResponse(worlds: seq<World>, steps: seq<Step>, stale: nat, m: nat, n: nat, key: Key)
    requires Trace(worlds, steps, stale) && worlds[0] == START && m <= n <= |steps| && Quiet(worlds[m], key)
    requires forall k :: m <= k <= n ==> key in worlds[k].table
    ensures Quiet(worlds[n], key)
    ensures worlds[n].table[key].response == worlds[m].table[key].response && worlds[n].table[key].resource == worlds[m].table[key].resource
  {
    hide Next, Quiet, Inv;
    if m < n {
      OneStoredResponse(worlds, steps, stale, m, n - 1, key);
      StartKept(stale);
      TraceKeeps(worlds, steps, stale, n - 1);
      assert StepAt(worlds, steps, stale, n - 1);
      QuietStays(worlds[n - 1], steps[n - 1], stale, key);
    }
  }

  lemma QuietStays(w: World, step: Step, stale: nat, key: Key)
    requires Inv(w, stale) && Quiet(w, key) && key in Next(w, step, stale).table
    ensures var w' := Next(w, step, stale);
      Quiet(w', key) && w'.table[key].response == w.table[key].response && w'.table[key].resource == w.table[key].resource
  {
    hide Inv, AfterWithdrawal, AfterStart, PurgeExpired;
    match step {
      case PostWithdrawal(k, hash, accepted) =>
        WithdrawalSameOrNewer(w, Key(k, WITHDRAWALS), hash, accepted, stale, key);
        WithdrawalStartsNothing(w, Key(k, WITHDRAWALS), hash, accepted, stale);
      case StartDeposit(k, hash, accepted) =>
        StartSameOrNewer(w, Key(k, DEPOSITS), hash, accepted, stale, key);
        StartsOnOthers(w, Key(k, DEPOSITS), hash, accepted, stale, key);
      case PurgeKeys(_) => PurgedOrSame(w, step, stale, key);
      case _ =>
    }
  }

  lemma WithdrawalStartsNothing(w: World, k: Key, hash: string, accepted: Option<Response>, stale: nat)
    ensures AfterWithdrawal(w, k, hash, accepted, stale).attempts == w.attempts
  {
    hide ValidKey;
  }

  /** Nobody starts working on a completed key. */
  lemma StartsOnOthers(w: World, k: Key, hash: string, accepted: bool, stale: nat, key: Key)
    requires key in w.table && w.table[key].completed
    ensures var w' := AfterStart(w, k, hash, accepted, stale);
      w'.attempts == w.attempts || (|w'.attempts| == |w.attempts| + 1 && w'.attempts[..|w.attempts|] == w.attempts && w'.attempts[|w.attempts|].key != key)
  {
    hide ValidKey;
  }

  function Stored(w: World, key: Key): Option<Response> {
    if key in w.table then w.table[key].response else None
  }

  /** A slow original that outlives its takeover replaces the response the takeover stored. */
  lemma SlowOriginalOverwrites(key: string, hash: string, first: Response, second: Response, stale: nat)
    requires ValidKey(key)
    ensures
      var w := Next(Next(Next(START, StartDeposit(key, hash, true), stale), Tick(stale + 1), stale), StartDeposit(key, hash, true), stale);
      var w' := Next(w, FinishDeposit(1, first), stale);
      && Stored(w', Key(key, DEPOSITS)) == Some(first)
      && Stored(Next(w', FinishDeposit(0, second), stale), Key(key, DEPOSITS)) == Some(second)
  {
    hide ValidKey;
    var k := Key(key, DEPOSITS);
    var w1 := AfterStart(START, k, hash, true, stale);
    assert w1.table == map[k := Record(hash, false, Some(0), None, 0, 0)] && w1.attempts == [Attempt(k, 0, 0, true)];
    var w2 := w1.(clock := stale + 1);
    var w3 := AfterStart(w2, k, hash, true, stale);
    assert w3.attempts == [Attempt(k, 0, 0, true), Attempt(k, 0, 0, true)] && k in w3.table;
  }
}
