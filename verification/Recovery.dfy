/** What an accepted recovery does to the tables, and what it leaves alone. */
module Recovery {
  import opened Common
  import opened Store
  import opened Alerts
  import opened Worker
  import Like
  import Scopes

  /** A recovery's own event is added beside the rows that resolving and cancelling left. */
  lemma RowsAfterRecovery(db: Db, e: Event, now: Time)
    requires WellFormed(db) && VerdictOf(db, e, now).Recover?
    ensures var db' := EnqueueTx(db, e, now).0;
            var events := ResolveEvents(db.events, e, now);
            var ds := CancelPending(db.deliveries, events, e.key, now);
            && (forall id :: id in db.events ==> id in db'.events && db'.events[id] == events[id])
            && (forall id :: id in db.deliveries ==> id in db'.deliveries && db'.deliveries[id] == ds[id])
  {
    var cleared, key := ResolveAll(WithRule(db, e), e, now), RecoveryKey(e, now);
    ResolveEffect(WithRule(db, e), e, now);
    CreateEffect(cleared, e, "recovery", key, now, Some(now));
    var made := CreateEvent(cleared, e, "recovery", key, now, Some(now)).0;
    assert RowsStay(cleared, made);
    RecoveryTables(db, e, now);
  }

  /** The rows of one state are rows of the other. */
  ghost predicate RowsStay(db: Db, db': Db) {
    && (forall id :: id in db.events ==> id in db'.events && db'.events[id] == db.events[id])
    && (forall id :: id in db.deliveries ==> id in db'.deliveries && db'.deliveries[id] == db.deliveries[id])
  }

  lemma RecoveryTables(db: Db, e: Event, now: Time)
    requires VerdictOf(db, e, now).Recover?
    ensures var cleared := ResolveAll(WithRule(db, e), e, now);
            var made := CreateEvent(cleared, e, "recovery", RecoveryKey(e, now), now, Some(now)).0;
            var db' := EnqueueTx(db, e, now).0;
            var last := if RuleOf(db, e).sendRecovery then made else cleared;
            db'.events == last.events && db'.deliveries == last.deliveries
  {
  }

  /** The exact effect on existing rows: an event is resolved if and only if it is unresolved, of the same key,
      and (for a subject) its dedup key is LIKE the recovery's own; and what was pending on it is cancelled. */
  lemma RecoveryResolves(db: Db, e: Event, now: Time, id: nat)
    requires WellFormed(db) && VerdictOf(db, e, now).Recover? && id in db.events
    ensures var db' := EnqueueTx(db, e, now).0;
            && id in db'.events
            && db'.events[id] == if Recovers(db.events[id], e)
                                 then db.events[id].(status := Resolved, resolvedAt := Some(now)) else db.events[id]
  {
    RowsAfterRecovery(db, e, now);
  }

  /** Exactly which deliveries a recovery cancels: those pending on an event that it resolves, or that an earlier recovery
      of the same key has resolved or inserted at the same clock reading. Every other delivery stays as it is. */
  lemma RecoveryCancelsExactly(db: Db, e: Event, now: Time, id: nat)
    requires WellFormed(db) && VerdictOf(db, e, now).Recover? && id in db.deliveries
    ensures var d, ds := db.deliveries[id], EnqueueTx(db, e, now).0.deliveries;
            && id in ds
            && ds[id] == if d.status == Pending && (Recovers(db.events[d.eventId], e) || ResolvedAtNow(db.events, d.eventId, e.key, now))
                         then d.(status := Cancelled) else d
  {
    RowsAfterRecovery(db, e, now);
  }

  lemma RecoveryCancels(db: Db, e: Event, now: Time, id: nat)
    requires WellFormed(db) && VerdictOf(db, e, now).Recover? && id in db.deliveries
    requires db.deliveries[id].status == Pending && Recovers(db.events[db.deliveries[id].eventId], e)
    ensures var ds := EnqueueTx(db, e, now).0.deliveries;
            id in ds && ds[id] == db.deliveries[id].(status := Cancelled)
  {
    RecoveryCancelsExactly(db, e, now, id);
  }

  /** Cancellation goes by resolution time, so a second recovery of the same key at the same clock reading
      also cancels what the first one has just queued. */
  lemma SameInstantCancels(db: Db, e: Event, now: Time, id: nat)
    requires WellFormed(db) && VerdictOf(db, e, now).Recover?
    requires id in db.deliveries && db.deliveries[id].status == Pending
    requires ResolvedAtNow(db.events, db.deliveries[id].eventId, e.key, now)
    ensures var ds := EnqueueTx(db, e, now).0.deliveries; id in ds && ds[id].status == Cancelled
  {
    RecoveryCancelsExactly(db, e, now, id);
  }

  /** What a recovery does to its scope's row: inactive, resolved now, its last trigger kept, and pointing to the
      recovery's own event if one was sent. */
  predicate Closed(before: State, after: State, now: Time, sent: bool, id: nat) {
    && !after.active && after.activeDedupKey.None? && after.resolvedAt == Some(now)
    && after.lastTriggeredAt == before.lastTriggeredAt
    && after.lastEventId == (if sent then Some(id) else before.lastEventId)
    && after.lastNotifiedAt == (if sent then Some(now) else before.lastNotifiedAt)
  }

  /** The scope's own state is inactive and resolved now; every other scope's row is untouched, and so is every
      event of another key. The recovery's own deliveries are the only new rows, and all of them pending. */
  lemma RecoveryIsFramed(db: Db, e: Event, now: Time)
    requires WellFormed(db) && VerdictOf(db, e, now).Recover?
    ensures var db' := EnqueueTx(db, e, now).0;
            && Closed(StateOf(db, ScopeOf(e)), StateOf(db', ScopeOf(e)), now, RuleOf(db, e).sendRecovery, EnqueueTx(db, e, now).1)
            && (forall scope :: scope != ScopeOf(e) ==> StateOf(db', scope) == StateOf(db, scope))
            && (forall id :: id in db.events && db.events[id].key != e.key ==> id in db'.events && db'.events[id] == db.events[id])
            && (forall id :: id in db'.deliveries && id !in db.deliveries ==>
                  db'.deliveries[id].status == Pending && db'.deliveries[id].eventId == db.nextEvent)
  {
    var db' := EnqueueTx(db, e, now).0;
    forall scope ensures StateOf(db', scope) == if scope == ScopeOf(e)
      then Scopes.StateAfter(StateOf(db, scope), RuleOf(db, e), Recover, e, EnqueueTx(db, e, now).1, now) else StateOf(db, scope)
    {
      Scopes.EnqueueState(db, e, now, scope);
    }
    EnqueueEffect(db, e, now);
    FramedRows(db, db', e, now);
  }

  lemma FramedRows(db: Db, db': Db, e: Event, now: Time)
    requires WellFormed(db) && Effect(db, db', e, now)
    ensures forall id :: id in db.events && db.events[id].key != e.key ==> id in db'.events && db'.events[id] == db.events[id]
    ensures forall id :: id in db'.deliveries && id !in db.deliveries ==>
              db'.deliveries[id].status == Pending && db'.deliveries[id].eventId == db.nextEvent
  {
    forall id | id in db.events ensures EventStays(db.events[id], db'.events[id], e, now) {}
  }

  // ---- over a run ---------------------------------------------------------------------

  /** A stateful event with a subject carries its scope's dedup key. */
  predicate CarriesKey(e: Event, keyOf: Scope -> string) {
    !e.instant && e.subject != "" ==> e.dedupKey == keyOf(ScopeOf(e))
  }

  /** As all events of the monitor do. */
  ghost predicate KeyedBy(actions: seq<Action>, keyOf: Scope -> string) {
    forall a :: a in actions && a.Enqueue? ==> CarriesKey(a.event, keyOf)
  }

  ghost predicate Keyed(s: Sys, keyOf: Scope -> string) {
    forall id :: id in s.origin ==>
      && id in s.db.events && s.db.events[id].key == s.origin[id].key
      && (s.origin[id].subject != "" ==> keyOf(s.origin[id]) <= s.db.events[id].dedupKey)
  }

  lemma KeyForExtends(v: Verdict, e: Event, now: Time)
    ensures e.dedupKey <= KeyFor(v, e, now)
  {
  }

  lemma EffectKeyed(s: Sys, s': Sys, e: Event, now: Time, keyOf: Scope -> string)
    requires Keyed(s, keyOf) && Effect(s.db, s'.db, e, now) && CarriesKey(e, keyOf)
    requires s'.origin == if s'.db.nextEvent != s.db.nextEvent && !e.instant
                          then s.origin[s.db.nextEvent := ScopeOf(e)] else s.origin
    ensures Keyed(s', keyOf)
  {
    KeyForExtends(VerdictOf(s.db, e, now), e, now);
    forall id | id in s.db.events
      ensures s'.db.events[id].key == s.db.events[id].key && s'.db.events[id].dedupKey == s.db.events[id].dedupKey
    {
      assert EventStays(s.db.events[id], s'.db.events[id], e, now);
    }
  }

  lemma OtherKeyed(s: Sys, a: Action, keyOf: Scope -> string)
    requires Keyed(s, keyOf) && !a.Enqueue?
    ensures Keyed(Step(s, a), keyOf)
  {
    OtherStepsKeepNames(s, a);
    NamesKeyed(s, Step(s, a), keyOf);
  }

  lemma NamesKeyed(s: Sys, s': Sys, keyOf: Scope -> string)
    requires Keyed(s, keyOf) && SameNames(s.db.events, s'.db.events) && s'.origin == s.origin
    ensures Keyed(s', keyOf)
  {
  }

  lemma {:induction false} RunKeyed(s: Sys, actions: seq<Action>, keyOf: Scope -> string)
    requires Good(s) && Keyed(s, keyOf) && KeyedBy(actions, keyOf)
    ensures Keyed(Run(s, actions), keyOf)
  {
    if actions != [] {
      var init, a := actions[..|actions| - 1], actions[|actions| - 1];
      RunKeyed(s, init, keyOf);
      RunIsGood(s, init);
      var r := Run(s, init);
      if a.Enqueue? && ValidEvent(a.event) {
        EnqueueEffect(r.db, a.event, a.now);
        EffectKeyed(r, Step(r, a), a.event, a.now, keyOf);
      } else if !a.Enqueue? {
        OtherKeyed(r, a, keyOf);
      }
    }
  }

  /** After an accepted recovery no event its scope has ever inserted is unresolved, and none of their
      deliveries is pending: without a subject the rule's key alone selects them, and with one the LIKE filter reaches all
      of them, whatever the subject contains. */
  lemma RecoveryIsComplete(db: Db, clock: Time, actions: seq<Action>, keyOf: Scope -> string, e: Event, now: Time, id: nat)
    requires Empty(db) && KeyedBy(actions, keyOf) && CarriesKey(e, keyOf) && ValidEvent(e)
    requires var s := Run(Start0(db, clock), actions);
             VerdictOf(s.db, e, now).Recover? && id in s.origin && s.origin[id] == ScopeOf(e)
    ensures var s := Run(Start0(db, clock), actions);
            var db' := EnqueueTx(s.db, e, now).0;
            && id in s.db.events && id in db'.events && db'.events[id].resolvedAt.Some?
            && (s.db.events[id].resolvedAt.None? ==>
                  && db'.events[id].status == Resolved && db'.events[id].resolvedAt == Some(now)
                  && forall d :: d in db'.deliveries && db'.deliveries[d].eventId == id ==> db'.deliveries[d].status != Pending)
  {
    var s := Run(Start0(db, clock), actions);
    StartIsGood(db, clock);
    RunIsGood(Start0(db, clock), actions);
    RunKeyed(Start0(db, clock), actions, keyOf);
    OwnEventIsReached(s, keyOf, e, id);
    RecoveryResolves(s.db, e, now, id);
    if s.db.events[id].resolvedAt.None? {
      NothingPending(s.db, e, now, id);
    }
  }

  /** What the scope has inserted and is unresolved, the filter reaches. */
  lemma OwnEventIsReached(s: Sys, keyOf: Scope -> string, e: Event, id: nat)
    requires Keyed(s, keyOf) && CarriesKey(e, keyOf) && !e.instant && id in s.origin && s.origin[id] == ScopeOf(e)
    ensures id in s.db.events && (s.db.events[id].resolvedAt.None? ==> Recovers(s.db.events[id], e))
  {
    if e.subject != "" {
      var row := s.db.events[id];
      var rest := row.dedupKey[|e.dedupKey|..];
      assert row.dedupKey == e.dedupKey + rest;
      Like.OwnPrefixMatches(e.dedupKey, rest);
    }
  }

  lemma NothingPending(db: Db, e: Event, now: Time, id: nat)
    requires WellFormed(db) && VerdictOf(db, e, now).Recover? && id in db.events && Recovers(db.events[id], e)
    ensures var ds := EnqueueTx(db, e, now).0.deliveries;
            forall d :: d in ds && ds[d].eventId == id ==> ds[d].status != Pending
  {
    var db' := EnqueueTx(db, e, now).0;
    EnqueueEffect(db, e, now);
    forall d | d in db'.deliveries && db'.deliveries[d].eventId == id ensures db'.deliveries[d].status != Pending {
      if d in db.deliveries {
        assert DeliveryStays(db.deliveries[d], db'.deliveries[d], db'.events, e.key, now);
        if db.deliveries[d].status == Pending {
          RecoveryCancels(db, e, now, d);
        }
      }
    }
  }

  /** For a subject whose key holds no wildcard the filter is "starts with, ignoring case", so it also
      reaches longer subjects: recovering `web` resolves the open events of `web2` and of `WEB`. */
  lemma RecoveryReachesLongerSubjects(row: EventRow, e: Event)
    requires e.subject != "" && '%' !in e.dedupKey && '_' !in e.dedupKey
    ensures Recovers(row, e) <==>
              row.key == e.key && row.resolvedAt.None? && |e.dedupKey| <= |row.dedupKey|
              && forall i :: 0 <= i < |e.dedupKey| ==> Like.SameLetter(e.dedupKey[i], row.dedupKey[i])
  {
    Like.PlainPrefixMatches(e.dedupKey, row.dedupKey);
  }

  /** More generally, for a key without `%`: each `_` of it, which is common in container names, reaches any character. */
  lemma RecoveryReachesExactly(row: EventRow, e: Event)
    requires e.subject != "" && '%' !in e.dedupKey
    ensures Recovers(row, e) <==> row.key == e.key && row.resolvedAt.None? && Like.Fits(e.dedupKey, row.dedupKey)
  {
    Like.PrefixMatches(e.dedupKey, row.dedupKey);
  }

  /** For one: recovering the object `a_b` resolves an open event of `axb`. */
  lemma RecoveringUnderscoreReachesAny(key: string, row: EventRow)
    requires '%' !in key && row.key == key && row.resolvedAt.None? && row.dedupKey == key + ":axb"
    ensures Recovers(row, Event(key, "recovery", key + ":a_b", "", true, "a_b", false))
  {
    Like.PrefixMatches(key + ":a_b", row.dedupKey);
  }

  /** For one: recovering the object `web` of any rule resolves an open event of its object `web2`. */
  lemma RecoveringWebReachesWeb2(key: string, row: EventRow)
    requires row.key == key && row.resolvedAt.None? && row.dedupKey == key + ":web2"
    ensures Recovers(row, Event(key, "recovery", key + ":web", "", true, "web", false))
  {
    Like.OwnPrefixMatches(key + ":web", "2");
    assert key + ":web" + "2" == key + ":web2";
  }
}
