/** The webhook queue: one pass claims the oldest received event it has not deferred, handles it
    in its own transaction, and never lets a failing event burn more than one attempt a pass. */
module Webhooks {
  import opened Wrappers

  datatype EventStatus = Received | Processed | Failed | Ignored | Orphaned

  datatype Event = Event(status: EventStatus, attempts: nat)

  /** How handling an event ends: in a status, with the backend no longer knowing it, or with an
      exception. */
  datatype Ending = Processes | Ignores | Orphans | Gone | Raises

  datatype Report = Report(processed: nat, ignored: nat, orphaned: nat, failed: nat, retried: nat) {
    function Total(): nat {
      processed + ignored + orphaned + failed + retried
    }
  }

  function Handled(e: Event, ending: Ending, maxAttempts: nat): Event {
    match ending
    case Processes => Event(Processed, e.attempts + 1)
    case Ignores => Event(Ignored, e.attempts + 1)
    case Orphans => Event(Orphaned, e.attempts + 1)
    case Gone => Event(Failed, e.attempts + 1)
    case Raises => Event(if e.attempts + 1 >= maxAttempts then Failed else Received, e.attempts + 1)
  }

  predicate Claimable(events: seq<Event>, locked: set<nat>, i: nat) {
    i < |events| && events[i].status == Received && i !in locked
  }

  /** How many of the first `n` events a pass may claim. */
  function Waiting(events: seq<Event>, locked: set<nat>, n: nat): nat {
    if n == 0 then 0 else Waiting(events, locked, n - 1) + if Claimable(events, locked, n - 1) then 1 else 0
  }

  /** A pass of `limit` claims reaches the claimable events with fewer than `limit` older ones. */
  predicate Reached(events: seq<Event>, locked: set<nat>, limit: nat, i: nat) {
    Claimable(events, locked, i) && Waiting(events, locked, i) < limit
  }

  /** What a pass leaves behind. */
  ghost predicate Swept(before: seq<Event>, after: seq<Event>, locked: set<nat>, limit: nat, endings: seq<Ending>, maxAttempts: nat)
    requires |endings| == |before|
  {
    && |after| == |before|
    && forall i :: 0 <= i < |before| ==>
         after[i] == if Reached(before, locked, limit, i) then Handled(before[i], endings[i], maxAttempts) else before[i]
  }

  lemma {:induction false} WaitingGrows(events: seq<Event>, locked: set<nat>, m: nat, n: nat)
    requires m <= n
    ensures Waiting(events, locked, m) <= Waiting(events, locked, n)
    ensures m < n && Claimable(events, locked, m) ==> Waiting(events, locked, m) < Waiting(events, locked, n)
  {
    if m < n {
      WaitingGrows(events, locked, m, n - 1);
    }
  }

  lemma {:induction false} WaitingBehind(events: seq<Event>, locked: set<nat>, n: nat, k: nat)
    requires forall i :: 0 <= i < n && Claimable(events, locked, i) ==> Waiting(events, locked, i) < k
    ensures Waiting(events, locked, n) <= k
  {
    if n > 0 {
      WaitingBehind(events, locked, n - 1, k);
    }
  }

  function Bump(report: Report, e: Event, ending: Ending, maxAttempts: nat): Report {
    match ending
    case Processes => report.(processed := report.processed + 1)
    case Ignores => report.(ignored := report.ignored + 1)
    case Orphans => report.(orphaned := report.orphaned + 1)
    case Gone => report.(failed := report.failed + 1)
    case Raises =>
      if e.attempts + 1 >= maxAttempts then report.(failed := report.failed + 1) else report.(retried := report.retried + 1)
  }

  /** What a pass of `limit` claims reports of the first `n` events. */
  function Tally(events: seq<Event>, locked: set<nat>, limit: nat, endings: seq<Ending>, maxAttempts: nat, n: nat): Report
    requires |endings| == |events| && n <= |events|
  {
    if n == 0 then Report(0, 0, 0, 0, 0)
    else
      var before := Tally(events, locked, limit, endings, maxAttempts, n - 1);
      if Reached(events, locked, limit, n - 1) then Bump(before, events[n - 1], endings[n - 1], maxAttempts) else before
  }

  /** Reaching one event more adds that event's count. */
  lemma {:induction false} TallyOneMore(events: seq<Event>, locked: set<nat>, pass: nat, endings: seq<Ending>, maxAttempts: nat, i: nat, n: nat)
    requires |endings| == |events| && n <= |events| && i < |events|
    requires Claimable(events, locked, i) && Waiting(events, locked, i) == pass
    requires forall j: nat :: Reached(events, locked, pass + 1, j) <==> j == i || Reached(events, locked, pass, j)
    ensures var before := Tally(events, locked, pass, endings, maxAttempts, n);
      Tally(events, locked, pass + 1, endings, maxAttempts, n)
        == if i < n then Bump(before, events[i], endings[i], maxAttempts) else before
  {
    hide Waiting, Claimable, Reached;
    if n > 0 {
      TallyOneMore(events, locked, pass, endings, maxAttempts, i, n - 1);
      ReachedOnce(events, locked, pass, i);
    }
  }

  lemma ReachedOnce(events: seq<Event>, locked: set<nat>, pass: nat, i: nat)
    requires Waiting(events, locked, i) == pass
    ensures !Reached(events, locked, pass, i)
  {
  }

  lemma {:induction false} TallySame(events: seq<Event>, locked: set<nat>, pass: nat, limit: nat, endings: seq<Ending>, maxAttempts: nat, n: nat)
    requires |endings| == |events| && n <= |events|
    requires forall i: nat :: i < |events| ==> Reached(events, locked, limit, i) == Reached(events, locked, pass, i)
    ensures Tally(events, locked, limit, endings, maxAttempts, n) == Tally(events, locked, pass, endings, maxAttempts, n)
  {
    hide Reached;
    if n > 0 {
      TallySame(events, locked, pass, limit, endings, maxAttempts, n - 1);
    }
  }

  lemma {:induction false} TallyNone(events: seq<Event>, locked: set<nat>, endings: seq<Ending>, maxAttempts: nat, n: nat)
    requires |endings| == |events| && n <= |events|
    ensures Tally(events, locked, 0, endings, maxAttempts, n) == Report(0, 0, 0, 0, 0)
  {
    if n > 0 {
      TallyNone(events, locked, endings, maxAttempts, n - 1);
    }
  }

  class Processor {
    var events: seq<Event>

    constructor (events: seq<Event>)
      ensures this.events == events
    {
      this.events := events;
    }

    /** The oldest received event that is neither locked by another worker nor deferred. */
    method Claim(deferred: set<nat>, locked: set<nat>) returns (r: Option<nat>)
      ensures IsNext(events, locked, deferred, r)
    {
      for i := 0 to |events|
        invariant forall k :: 0 <= k < i ==> !(Claimable(events, locked, k) && k !in deferred)
      {
        if events[i].status == Received && i !in locked && i !in deferred {
          return Some(i);
        }
      }
      return None;
    }

    /** `process_pending`. */
    method ProcessPending(limit: nat, maxAttempts: nat, locked: set<nat>, endings: seq<Ending>) returns (report: Report)
      requires |endings| == |events|
      modifies this
      ensures Swept(old(events), events, locked, limit, endings, maxAttempts)
      ensures report == Tally(old(events), locked, limit, endings, maxAttempts, |old(events)|)
      ensures report.Total() == if Waiting(old(events), locked, |old(events)|) < limit then Waiting(old(events), locked, |old(events)|) else limit
    {
      hide Claimable, Waiting, Tally;
      TallyNone(events, locked, endings, maxAttempts, |events|);
      report := Report(0, 0, 0, 0, 0);
      var deferred: set<nat> := {};
      ghost var before := events;
      for pass := 0 to limit
        invariant report.Total() == pass <= Waiting(before, locked, |before|)
        invariant report == Tally(before, locked, pass, endings, maxAttempts, |before|)
        invariant Swept(before, events, locked, pass, endings, maxAttempts)
        invariant forall i :: i in deferred ==> Reached(before, locked, pass, i)
        invariant forall i :: 0 <= i < |before| && Reached(before, locked, pass, i) && events[i].status == Received ==> i in deferred
      {
        var claimed := Claim(deferred, locked);
        NextInLine(before, events, pass, locked, deferred, endings, maxAttempts, claimed);
        if claimed.None? {
          EverythingReached(before, events, pass, limit, locked, endings, maxAttempts);
          return;
        }
        var i := claimed.value;
        OneMore(before, locked, pass, i);
        TallyOneMore(before, locked, pass, endings, maxAttempts, i, |before|);
        events := events[i := Handled(events[i], endings[i], maxAttempts)];
        match endings[i] {
          case Processes => report := report.(processed := report.processed + 1);
          case Ignores => report := report.(ignored := report.ignored + 1);
          case Orphans => report := report.(orphaned := report.orphaned + 1);
          case Gone => report := report.(failed := report.failed + 1);
          case Raises =>
            deferred := deferred + {i};
            if events[i].status == Failed {
              report := report.(failed := report.failed + 1);
            } else {
              report := report.(retried := report.retried + 1);
            }
        }
      }
    }
  }

  ghost predicate IsNext(events: seq<Event>, locked: set<nat>, deferred: set<nat>, r: Option<nat>) {
    match r
    case Some(next) =>
      && Claimable(events, locked, next) && next !in deferred
      && forall i :: 0 <= i < next ==> !(Claimable(events, locked, i) && i !in deferred)
    case None => forall i :: 0 <= i < |events| ==> !(Claimable(events, locked, i) && i !in deferred)
  }

  /** What is claimable and not deferred is exactly what this pass has not reached yet, so the
      claim takes the event with exactly `pass` older ones. */
  lemma NextInLine(before: seq<Event>, now: seq<Event>, pass: nat, locked: set<nat>, deferred: set<nat>,
                   endings: seq<Ending>, maxAttempts: nat, claimed: Option<nat>)
    requires |endings| == |before| && Swept(before, now, locked, pass, endings, maxAttempts)
    requires forall i :: i in deferred ==> Reached(before, locked, pass, i)
    requires forall i :: 0 <= i < |before| && Reached(before, locked, pass, i) && now[i].status == Received ==> i in deferred
    requires IsNext(now, locked, deferred, claimed)
    ensures claimed.Some? ==>
      Claimable(before, locked, claimed.value) && Waiting(before, locked, claimed.value) == pass && now[claimed.value] == before[claimed.value]
    ensures claimed.None? ==> Waiting(before, locked, |before|) <= pass
  {
    forall i: nat | i < |before| ensures Claimable(now, locked, i) && i !in deferred <==> Claimable(before, locked, i) && Waiting(before, locked, i) >= pass {
      assert now[i] == if Reached(before, locked, pass, i) then Handled(before[i], endings[i], maxAttempts) else before[i];
    }
    var n := if claimed.Some? then claimed.value else |before|;
    WaitingBehind(before, locked, n, pass);
  }

  lemma OneMore(before: seq<Event>, locked: set<nat>, pass: nat, i: nat)
    requires i < |before| && Claimable(before, locked, i) && Waiting(before, locked, i) == pass
    ensures pass + 1 <= Waiting(before, locked, |before|)
    ensures forall j: nat :: Reached(before, locked, pass + 1, j) <==> j == i || Reached(before, locked, pass, j)
  {
    hide Waiting;
    WaitingGrows(before, locked, i, |before|);
    forall j: nat ensures Reached(before, locked, pass + 1, j) <==> j == i || Reached(before, locked, pass, j) {
      if Claimable(before, locked, j) {
        WaitingGrows(before, locked, if i < j then i else j, if i < j then j else i);
      }
    }
  }

  lemma EverythingReached(before: seq<Event>, now: seq<Event>, pass: nat, limit: nat, locked: set<nat>, endings: seq<Ending>, maxAttempts: nat)
    requires |endings| == |before| && Swept(before, now, locked, pass, endings, maxAttempts)
    requires pass <= limit && Waiting(before, locked, |before|) <= pass
    ensures Swept(before, now, locked, limit, endings, maxAttempts)
    ensures Tally(before, locked, limit, endings, maxAttempts, |before|) == Tally(before, locked, pass, endings, maxAttempts, |before|)
  {
    hide Waiting, Claimable;
    forall i: nat | i < |before| ensures Reached(before, locked, limit, i) == Reached(before, locked, pass, i) {
      WaitingGrows(before, locked, i, |before|);
    }
    TallySame(before, locked, pass, limit, endings, maxAttempts, |before|);
  }

  /** A pass that may claim as often as there are received events tries every one of them that
      no other worker holds, exactly once, whatever the others do. */
  lemma NobodyIsStarved(before: seq<Event>, after: seq<Event>, locked: set<nat>, limit: nat, endings: seq<Ending>, maxAttempts: nat)
    requires |endings| == |before| && limit >= Waiting(before, locked, |before|)
    requires Swept(before, after, locked, limit, endings, maxAttempts)
    ensures forall i :: 0 <= i < |before| ==>
      after[i].attempts == before[i].attempts + if Claimable(before, locked, i) then 1 else 0
  {
    hide Waiting, Claimable;
    forall i: nat | i < |before|
      ensures after[i].attempts == before[i].attempts + if Claimable(before, locked, i) then 1 else 0
    {
      WaitingGrows(before, locked, i, |before|);
    }
  }

  /** A received event still has attempts left. */
  ghost predicate HasAttemptsLeft(events: seq<Event>, maxAttempts: nat) {
    forall i :: 0 <= i < |events| && events[i].status == Received ==> events[i].attempts < maxAttempts
  }

  /** An event that keeps raising is given up at exactly its last attempt, and no sooner. */
  lemma GivenUpAtTheLimit(before: seq<Event>, after: seq<Event>, locked: set<nat>, limit: nat, endings: seq<Ending>, maxAttempts: nat)
    requires |endings| == |before| && HasAttemptsLeft(before, maxAttempts)
    requires Swept(before, after, locked, limit, endings, maxAttempts)
    ensures HasAttemptsLeft(after, maxAttempts)
    ensures forall i :: 0 <= i < |before| && Reached(before, locked, limit, i) && endings[i] == Raises ==>
      after[i].attempts <= maxAttempts && (after[i].status == Failed <==> after[i].attempts == maxAttempts)
  {
    hide Waiting;
    forall i: nat | i < |before|
      ensures after[i].status == Received ==> after[i].attempts < maxAttempts
      ensures Reached(before, locked, limit, i) && endings[i] == Raises ==>
        after[i].attempts <= maxAttempts && (after[i].status == Failed <==> after[i].attempts == maxAttempts)
    {
      assert after[i] == if Reached(before, locked, limit, i) then Handled(before[i], endings[i], maxAttempts) else before[i];
    }
  }
}
