/** `Idempotency-Key` records: one row per key and endpoint, claimed, attached to the resource
    it created, completed with a response to replay, and purged after its time to live. */
module Idempotency {
  import opened Texts
  import opened Wrappers

  datatype Key = Key(key: string, endpoint: string)

  datatype Response = Response(status: int, body: string)

  datatype Record = Record(hash: string, completed: bool, resource: Option<nat>, response: Option<Response>,
                           createdAt: int, updatedAt: int)

  type Table = map<Key, Record>

  /** What a caller that may go on learns. */
  datatype Begun = Owned(reclaimed: bool, owned: Option<nat>) | Replayed(response: Response, resource: Option<nat>)

  datatype IdempotencyError = InvalidKey | Mismatch | InFlight

  const MAX_KEY_LENGTH := 255

  predicate ValidKey(key: string) {
    !Blank(key) && |key| <= MAX_KEY_LENGTH
  }

  predicate Stale(r: Record, now: int, stale: nat) {
    !r.completed && r.updatedAt < now - stale
  }

  function StoredResponse(r: Record): Response {
    if r.response.Some? then r.response.value else Response(200, "")
  }

  /** Claim, replay, take over, or refuse. */
  function Begin(t: Table, key: Key, hash: string, now: int, stale: nat): Result<(Table, Begun), IdempotencyError> {
    if !ValidKey(key.key) then Failure(InvalidKey)
    else if key !in t then Success((t[key := Record(hash, false, None, None, now, now)], Owned(false, None)))
    else if t[key].hash != hash then Failure(Mismatch)
    else if t[key].completed then Success((t, Replayed(StoredResponse(t[key]), t[key].resource)))
    else if Stale(t[key], now, stale) then Success((t[key := t[key].(updatedAt := now)], Owned(true, t[key].resource)))
    else Failure(InFlight)
  }

  // -- claiming among other transactions ---------------------------------------------------------

  /** The table as the three statements of one pass find it: others may commit in between. */
  datatype View = View(atInsert: Table, atRead: Table, atUpdate: Table)

  /** Insert, else read back, else take over a stale record. None when the record that stood in
      the way of the insert is gone by the time it is read. */
  function Pass(v: View, key: Key, hash: string, now: int, stale: nat): Option<Result<(Table, Begun), IdempotencyError>> {
    if key !in v.atInsert then Some(Success((v.atInsert[key := Record(hash, false, None, None, now, now)], Owned(false, None))))
    else if key !in v.atRead then None
    else
      var existing := v.atRead[key];
      if existing.hash != hash then Some(Failure(Mismatch))
      else if existing.completed then Some(Success((v.atRead, Replayed(StoredResponse(existing), existing.resource))))
      // The conditional update moves `updated_at`, so at most one caller finds it stale.
      else if key in v.atUpdate && Stale(v.atUpdate[key], now, stale) then
        Some(Success((v.atUpdate[key := v.atUpdate[key].(updatedAt := now)], Owned(true, existing.resource))))
      else Some(Failure(InFlight))
  }

  function Passes(views: seq<View>, key: Key, hash: string, now: int, stale: nat): Result<(Table, Begun), IdempotencyError> {
    if views == [] then Failure(InFlight)
    else match Pass(views[0], key, hash, now, stale)
      case Some(r) => r
      case None => Passes(views[1..], key, hash, now, stale)
  }

  function BeginAmong(views: seq<View>, key: Key, hash: string, now: int, stale: nat): Result<(Table, Begun), IdempotencyError> {
    if !ValidKey(key.key) then Failure(InvalidKey) else Passes(views, key, hash, now, stale)
  }

  /** A record that is still stale when it is taken over is the one that was read: a record that
      replaced it would be fresh. */
  predicate SameRecord(v: View, key: Key, now: int, stale: nat) {
    key in v.atRead && key in v.atUpdate && Stale(v.atUpdate[key], now, stale) ==>
      v.atUpdate[key].hash == v.atRead[key].hash && v.atUpdate[key].resource == v.atRead[key].resource
  }

  ghost predicate BeginsAt(v: View, key: Key, hash: string, now: int, stale: nat, r: Result<(Table, Begun), IdempotencyError>) {
    r == Begin(v.atInsert, key, hash, now, stale) || r == Begin(v.atRead, key, hash, now, stale) || r == Begin(v.atUpdate, key, hash, now, stale)
  }

  /** Whatever commits between its statements, a claim is either refused as in flight or has the
      effect of `Begin` at one instant. */
  lemma {:induction false} BeginIsAtomic(views: seq<View>, key: Key, hash: string, now: int, stale: nat)
    requires views != [] && forall v :: v in views ==> SameRecord(v, key, now, stale)
    ensures var r := BeginAmong(views, key, hash, now, stale);
      r == Failure(InFlight) || exists v :: v in views && BeginsAt(v, key, hash, now, stale, r)
  {
    hide ValidKey;
    assert views[0] in views;
    var r := BeginAmong(views, key, hash, now, stale);
    if !ValidKey(key.key) || Pass(views[0], key, hash, now, stale).Some? {
      assert r == Failure(InFlight) || BeginsAt(views[0], key, hash, now, stale, r);
    } else if views[1..] != [] {
      BeginIsAtomic(views[1..], key, hash, now, stale);
      if r != Failure(InFlight) {
        var v :| v in views[1..] && BeginsAt(v, key, hash, now, stale, r);
        assert v in views;
      }
    } else {
      assert Passes(views[1..], key, hash, now, stale) == Failure(InFlight);
    }
  }

  /** When nothing else commits meanwhile, the first pass decides. */
  lemma BeginsAlone(t: Table, key: Key, hash: string, now: int, stale: nat)
    ensures BeginAmong([View(t, t, t), View(t, t, t), View(t, t, t)], key, hash, now, stale) == Begin(t, key, hash, now, stale)
  {
    hide ValidKey;
  }

  function RecordResource(t: Table, key: Key, resource: nat, now: int): Table {
    if key in t then t[key := t[key].(resource := Some(resource), updatedAt := now)] else t
  }

  /** Overwrites whatever response is there. */
  function Complete(t: Table, key: Key, response: Response, now: int): Table {
    if key in t then t[key := t[key].(completed := true, response := Some(response), updatedAt := now)] else t
  }

  function PurgeExpired(t: Table, now: int, ttl: nat): Table {
    map key | key in t && t[key].createdAt >= now - ttl :: t[key]
  }

  /** The `idempotency_keys` table behind one session. */
  class KeyTable {
    var records: Table

    constructor ()
      ensures records == map[]
    {
      records := map[];
    }

    /** Three passes at claiming. Before each statement the table is what the others have made of
        it by then. */
    method BeginRequest(key: Key, hash: string, now: int, stale: nat, views: seq<View>) returns (r: Result<Begun, IdempotencyError>)
      requires |views| == 3
      modifies this
      ensures match BeginAmong(views, key, hash, now, stale)
        case Success((t, begun)) => records == t && r == Success(begun)
        case Failure(err) =>
          r == Failure(err) && (records == old(records) || exists v :: v in views && records in {v.atInsert, v.atRead, v.atUpdate})
    {
      if Blank(key.key) || |key.key| > MAX_KEY_LENGTH {
        return Failure(InvalidKey);
      }
      for pass := 0 to 3
        invariant BeginAmong(views, key, hash, now, stale) == Passes(views[pass..], key, hash, now, stale)
        invariant records == old(records) || exists v :: v in views && records in {v.atInsert, v.atRead, v.atUpdate}
      {
        assert views[pass..][1..] == views[pass + 1..];
        records := views[pass].atInsert;
        if key !in records {
          records := records[key := Record(hash, false, None, None, now, now)];
          return Success(Owned(false, None));
        }
        records := views[pass].atRead;
        if key in records {
          var existing := records[key];
          if existing.hash != hash {
            return Failure(Mismatch);
          }
          if existing.completed {
            return Success(Replayed(StoredResponse(existing), existing.resource));
          }
          records := views[pass].atUpdate;
          if key in records && !records[key].completed && records[key].updatedAt < now - stale {
            records := records[key := records[key].(updatedAt := now)];
            return Success(Owned(true, existing.resource));
          }
          return Failure(InFlight);
        }
      }
      return Failure(InFlight);
    }

    /** The claim at one instant. */
    method BeginAlone(key: Key, hash: string, now: int, stale: nat) returns (r: Result<Begun, IdempotencyError>)
      modifies this
      ensures match Begin(old(records), key, hash, now, stale)
        case Success((t, begun)) => records == t && r == Success(begun)
        case Failure(err) => records == old(records) && r == Failure(err)
    {
      var view := View(records, records, records);
      BeginsAlone(records, key, hash, now, stale);
      r := BeginRequest(key, hash, now, stale, [view, view, view]);
    }

    method AttachResource(key: Key, resource: nat, now: int)
      modifies this
      ensures records == RecordResource(old(records), key, resource, now)
    {
      if key in records {
        records := records[key := records[key].(resource := Some(resource), updatedAt := now)];
      }
    }

    method CompleteRequest(key: Key, response: Response, now: int)
      modifies this
      ensures records == Complete(old(records), key, response, now)
    {
      if key in records {
        records := records[key := records[key].(completed := true, response := Some(response), updatedAt := now)];
      }
    }

    method Purge(now: int, ttl: nat) returns (dropped: nat)
      modifies this
      ensures records == PurgeExpired(old(records), now, ttl)
      ensures dropped == |old(records)| - |records|
    {
      var expired := set key | key in records && records[key].createdAt < now - ttl;
      KeptCount(records, expired);
      dropped := |expired|;
      records := map key | key in records && key !in expired :: records[key];
    }

    static lemma {:induction false} KeptCount(t: Table, expired: set<Key>)
      requires expired <= t.Keys
      ensures |map key | key in t && key !in expired :: t[key]| == |t| - |expired|
    {
      var kept := map key | key in t && key !in expired :: t[key];
      assert kept.Keys == t.Keys - expired;
    }
  }
}
