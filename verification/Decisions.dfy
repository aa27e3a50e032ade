/** What one Enqueue does in a reachable state, decided by the scope's own history: whether a step is accepted, whether an
    event is inserted, and what the state row then holds. */
module Decisions {
  import opened Common
  import opened Store
  import opened Alerts
  import opened Worker
  import opened Scopes
  import opened Fanout
  import Decimal
  import Like
  import Recovery

  /** Valid, as the code asks of every event. */
  predicate Named(e: Event) {
    e.key != "" && e.severity != "" && e.dedupKey != ""
  }

  /** The stored rule; without one, the default rule: enabled, a cooldown of 600 and a repeat interval of 1800 seconds,
      recoveries sent. */
  function RuleInForce(db: Db, e: Event): Rule {
    if e.key in db.rules then db.rules[e.key] else Rule(true, e.severity, 600, 1800, true)
  }

  /** The last accepted step was an alert. */
  predicate Open(log: seq<Acceptance>) {
    log != [] && !log[|log| - 1].kind.Recover?
  }

  /** Nothing accepted before, or the cooldown after the last recovery, or the repeat interval after the last alert is over. */
  predicate MayAlert(log: seq<Acceptance>, rule: Rule, now: Time) {
    || log == []
    || (log[|log| - 1].kind.Recover?
        && (rule.cooldown <= 0 || now >= log[|log| - 1].at + rule.cooldown * SECOND))
    || (Open(log) && rule.repeatEvery > 0 && now >= log[|log| - 1].at + rule.repeatEvery * SECOND)
  }

  /** Whether a stateful event of the scope is accepted. */
  predicate Accepted(log: seq<Acceptance>, rule: Rule, e: Event, now: Time) {
    rule.enabled && if e.recovery then Open(log) else MayAlert(log, rule, now)
  }

  function Kind(log: seq<Acceptance>, e: Event): Verdict {
    if e.recovery then Recover else if Open(log) then Repeat else Trigger
  }

  // ---- the decision -------------------------------------------------------------------

  /** Decide, as the log tells it. */
  function Expected(log: seq<Acceptance>, rule: Rule, e: Event, now: Time): Verdict {
    if !rule.enabled then Off
    else if e.instant then OneShot
    else if Accepted(log, rule, e, now) then Kind(log, e)
    else if e.recovery then Quiet
    else Suppressed
  }

  lemma DecisionIs(db: Db, state: State, rule: Rule, e: Event, now: Time, log: seq<Acceptance>)
    requires Shape(db, state, log)
    ensures Decide(rule, state, e, now) == Expected(log, rule, e, now)
  {
  }

  lemma VerdictIs(s: Sys, e: Event, now: Time)
    requires Shaped(s, ScopeOf(e))
    ensures RuleOf(s.db, e) == RuleInForce(s.db, e)
    ensures VerdictOf(s.db, e, now) == Expected(Of(s.accepted, ScopeOf(e)), RuleInForce(s.db, e), e, now)
  {
    DecisionIs(s.db, StateOf(s.db, ScopeOf(e)), RuleOf(s.db, e), e, now, Of(s.accepted, ScopeOf(e)));
  }

  lemma LogGrows(s: Sys, e: Event, now: Time, scope: Scope)
    requires Shaped(s, ScopeOf(e))
    ensures var log, rule := Of(s.accepted, scope), RuleInForce(s.db, e);
            Of(EnqueueStep(s, e, now).accepted, scope) ==
              if scope == ScopeOf(e) && Named(e) && !e.instant && Accepted(log, rule, e, now)
              then log + [Acceptance(scope, Kind(log, e), now)] else log
  {
    VerdictIs(s, e, now);
    OfGrows(s.accepted, Acceptance(ScopeOf(e), VerdictOf(s.db, e, now), now), scope);
  }

  lemma ReachedIsShaped(db: Db, clock: Time, actions: seq<Action>, scope: Scope)
    requires Empty(db) && Monotone(Start0(db, clock), actions)
    ensures Good(Run(Start0(db, clock), actions)) && Shaped(Run(Start0(db, clock), actions), scope)
  {
    StartIsGood(db, clock);
    RunIsGood(Start0(db, clock), actions);
    RunShaped(Start0(db, clock), actions, scope);
  }

  /** In every reachable state an Enqueue appends a step to the history of its own scope, and to no other, if and only if
      the event is valid and stateful, its rule enabled, and: for a recovery, the last step was an alert; for an alert,
      there is no step yet, or the last one was a recovery whose cooldown is over or an alert whose repeat interval is. */
  lemma AcceptedIff(db: Db, clock: Time, actions: seq<Action>, e: Event, now: Time, scope: Scope)
    requires Empty(db) && Monotone(Start0(db, clock), actions)
    ensures var s := Run(Start0(db, clock), actions);
            var log, rule := Of(s.accepted, scope), RuleInForce(s.db, e);
            Of(Step(s, Enqueue(e, now)).accepted, scope) ==
              if scope == Scope(e.key, e.subject) && Named(e) && !e.instant && Accepted(log, rule, e, now)
              then log + [Acceptance(scope, Kind(log, e), now)] else log
  {
    ReachedIsShaped(db, clock, actions, ScopeOf(e));
    LogGrows(Run(Start0(db, clock), actions), e, now, scope);
  }

  // ---- the event ----------------------------------------------------------------------

  /** Whether an event is to be inserted. */
  predicate Notifies(log: seq<Acceptance>, rule: Rule, e: Event, now: Time) {
    Named(e) && if e.instant then rule.enabled else Accepted(log, rule, e, now) && (e.recovery ==> rule.sendRecovery)
  }

  /** The dedup key it is inserted under. */
  function KeyToInsert(log: seq<Acceptance>, e: Event, now: Time): string {
    if e.instant then e.dedupKey
    else if e.recovery then e.dedupKey + ":recovery:" + Decimal.Show(now)
    else if Open(log) then e.dedupKey + ":repeat:" + Decimal.Show(now)
    else e.dedupKey
  }

  /** One new event, as given, and one delivery, pending and due now, for each recipient of `to`. */
  ghost predicate AddsOne(db: Db, db': Db, row: EventRow, to: seq<nat>, now: Time) {
    && db'.events.Keys == db.events.Keys + {db.nextEvent} && db'.nextEvent == db.nextEvent + 1
    && db'.events[db.nextEvent] == row
    && (forall d :: d in db'.deliveries <==> d in db.deliveries || db.nextDelivery <= d < db.nextDelivery + |to|)
    && (forall d :: db.nextDelivery <= d < db.nextDelivery + |to| ==>
          db'.deliveries[d] == Delivery(db.nextEvent, to[d - db.nextDelivery], Pending, 0, Some(now), None))
  }

  ghost predicate AddsNothing(db: Db, db': Db) {
    db'.events.Keys == db.events.Keys && db'.deliveries.Keys == db.deliveries.Keys && db'.nextEvent == db.nextEvent
  }

  lemma InsertedKeyIs(s: Sys, e: Event, now: Time, log: seq<Acceptance>)
    requires log == Of(s.accepted, ScopeOf(e)) && Shaped(s, ScopeOf(e)) && Inserts(VerdictOf(s.db, e, now))
    ensures KeyFor(VerdictOf(s.db, e, now), e, now) == KeyToInsert(log, e, now)
  {
    VerdictIs(s, e, now);
    StampIs(e.dedupKey, now);
  }

  lemma StampIs(key: string, now: Time)
    ensures Stamped(key, "recovery", now) == key + ":recovery:" + Decimal.Show(now)
    ensures Stamped(key, "repeat", now) == key + ":repeat:" + Decimal.Show(now)
  {
    assert ":" + "recovery" + ":" == ":recovery:" && ":" + "repeat" + ":" == ":repeat:";
    assert key + ":" + "recovery" + ":" == key + ":recovery:" && key + ":" + "repeat" + ":" == key + ":repeat:";
  }

  function RowToInsert(rule: Rule, e: Event, key: string, to: seq<nat>, now: Time): EventRow {
    if e.recovery && !e.instant then EventRow(e.key, "recovery", key, if to == [] then Skipped else Queued, now, Some(now))
    else EventRow(e.key, rule.severity, key, if to == [] then Skipped else Queued, now, None)
  }

  lemma InsertedIs(db: Db, db': Db, e: Event, now: Time, row: EventRow)
    requires WellFormed(db) && Effect(db, db', e, now) && Inserted(db, db', e, now)
    requires var v := VerdictOf(db, e, now);
             row == EventRow(e.key, SeverityFor(v, RuleOf(db, e)), KeyFor(v, e, now),
                             if Chosen(db, e.audience, e.key) == [] then Skipped else Queued, now,
                             if v.Recover? then Some(now) else None)
    ensures AddsOne(db, db', row, Chosen(db, e.audience, e.key), now)
  {
  }

  /** A verdict that inserts nothing. */
  lemma NothingAdded(db: Db, db': Db, e: Event, now: Time)
    requires Effect(db, db', e, now) && !Inserted(db, db', e, now)
    ensures AddsNothing(db, db')
  {
  }

  lemma UnsentRecoveryAddsNothing(db: Db, e: Event, now: Time)
    requires VerdictOf(db, e, now).Recover? && !RuleOf(db, e).sendRecovery
    ensures EnqueueTx(db, e, now).0.nextEvent == db.nextEvent
  {
  }

  lemma TransactionAdds(s: Sys, e: Event, now: Time)
    requires Good(s) && Shaped(s, ScopeOf(e)) && Named(e)
    ensures var db', rule := EnqueueTx(s.db, e, now).0, RuleInForce(s.db, e);
            var log, to := Of(s.accepted, ScopeOf(e)), Chosen(s.db, e.audience, e.key);
            var key := KeyToInsert(log, e, now);
            if Notifies(log, rule, e, now) && !KeyTaken(s.db, key)
            then AddsOne(s.db, db', RowToInsert(rule, e, key, to, now), to, now) else AddsNothing(s.db, db')
  {
    var v, db' := VerdictOf(s.db, e, now), EnqueueTx(s.db, e, now).0;
    EnqueueEffect(s.db, e, now);
    VerdictIs(s, e, now);
    if !Inserts(v) {
      NothingAdded(s.db, db', e, now);
    } else {
      InsertingAdds(s, db', e, now, v);
    }
  }

  lemma InsertingAdds(s: Sys, db': Db, e: Event, now: Time, v: Verdict)
    requires Good(s) && Shaped(s, ScopeOf(e)) && Named(e) && v == VerdictOf(s.db, e, now) && Inserts(v)
    requires db' == EnqueueTx(s.db, e, now).0 && Effect(s.db, db', e, now)
    ensures var rule, log, to := RuleInForce(s.db, e), Of(s.accepted, ScopeOf(e)), Chosen(s.db, e.audience, e.key);
            var key := KeyToInsert(log, e, now);
            if Notifies(log, rule, e, now) && !KeyTaken(s.db, key)
            then AddsOne(s.db, db', RowToInsert(rule, e, key, to, now), to, now) else AddsNothing(s.db, db')
  {
    VerdictIs(s, e, now);
    InsertedKeyIs(s, e, now, Of(s.accepted, ScopeOf(e)));
    if v.Recover? && !RuleOf(s.db, e).sendRecovery {
      UnsentRecoveryAddsNothing(s.db, e, now);
    } else if v.Recover? {
      RecoveryNotifiesIffKeyIsFree(s.db, e, now);
    } else {
      AlertNotifiesIffKeyIsFree(s.db, e, now);
    }
    var key, to := KeyFor(v, e, now), Chosen(s.db, e.audience, e.key);
    if Inserted(s.db, db', e, now) {
      InsertedIs(s.db, db', e, now, RowToInsert(RuleInForce(s.db, e), e, key, to, now));
    } else {
      NothingAdded(s.db, db', e, now);
    }
  }

  /** In every reachable state an Enqueue inserts an event if and only if it is valid, is instant under an enabled rule or is
      accepted (and, for a recovery, to be sent), and no row holds its dedup key: the event's own, with a stamp for a repeat
      or a recovery. Then it is the only new event, with exactly these columns, and its deliveries are the only new ones. */
  lemma EventIsAddedIff(db: Db, clock: Time, actions: seq<Action>, e: Event, now: Time)
    requires Empty(db) && Monotone(Start0(db, clock), actions)
    ensures var s := Run(Start0(db, clock), actions);
            var log, rule, to := Of(s.accepted, Scope(e.key, e.subject)), RuleInForce(s.db, e), Chosen(s.db, e.audience, e.key);
            var key := KeyToInsert(log, e, now);
            var db' := Step(s, Enqueue(e, now)).db;
            if Notifies(log, rule, e, now) && !KeyTaken(s.db, key)
            then AddsOne(s.db, db', RowToInsert(rule, e, key, to, now), to, now) else AddsNothing(s.db, db')
  {
    var s := Run(Start0(db, clock), actions);
    ReachedIsShaped(db, clock, actions, ScopeOf(e));
    if Named(e) {
      TransactionAdds(s, e, now);
    }
  }

  // ---- the state row ------------------------------------------------------------------

  /** The row after an accepted step: `id` is the event it points to. */
  function RowAfter(state: State, log: seq<Acceptance>, rule: Rule, e: Event, id: nat, now: Time): State {
    if !e.recovery then
      State(true, Some(e.dedupKey), Some(id), if Open(log) then state.lastTriggeredAt else Some(now), Some(now), None)
    else if rule.sendRecovery then State(false, None, Some(id), state.lastTriggeredAt, Some(now), Some(now))
    else State(false, None, state.lastEventId, state.lastTriggeredAt, state.lastNotifiedAt, Some(now))
  }

  /** The id of a row with that dedup key. */
  ghost predicate Names(db: Db, id: nat, key: string) {
    id in db.events && db.events[id].dedupKey == key
  }

  /** An accepted step writes the whole state row of its scope, pointing to the row that holds the key of its event, be it
      new or found; whatever is not accepted leaves the row as it was. The rule in force is stored, and no other changes. */
  lemma StateRowIs(db: Db, clock: Time, actions: seq<Action>, e: Event, now: Time)
    requires Empty(db) && Monotone(Start0(db, clock), actions)
    ensures var s, scope := Run(Start0(db, clock), actions), Scope(e.key, e.subject);
            var log, rule, state := Of(s.accepted, scope), RuleInForce(s.db, e), StateOf(s.db, scope);
            var db' := Step(s, Enqueue(e, now)).db;
            if Named(e) && !e.instant && Accepted(log, rule, e, now)
            then exists id :: StateOf(db', scope) == RowAfter(state, log, rule, e, id, now)
                              && (!e.recovery || rule.sendRecovery ==> Names(db', id, KeyToInsert(log, e, now)))
            else StateOf(db', scope) == state
    ensures var s := Run(Start0(db, clock), actions);
            Step(s, Enqueue(e, now)).db.rules == if Named(e) then s.db.rules[e.key := RuleInForce(s.db, e)] else s.db.rules
  {
    var s := Run(Start0(db, clock), actions);
    ReachedIsShaped(db, clock, actions, ScopeOf(e));
    if Named(e) {
      TransactionState(s, e, now);
      EnqueueRules(s.db, e, now);
    }
  }

  lemma TransactionState(s: Sys, e: Event, now: Time)
    requires Good(s) && Shaped(s, ScopeOf(e)) && Named(e)
    ensures var log, rule, state := Of(s.accepted, ScopeOf(e)), RuleInForce(s.db, e), StateOf(s.db, ScopeOf(e));
            var (db', id) := EnqueueTx(s.db, e, now);
            if !e.instant && Accepted(log, rule, e, now)
            then StateOf(db', ScopeOf(e)) == RowAfter(state, log, rule, e, id, now)
                 && (!e.recovery || rule.sendRecovery ==> Names(db', id, KeyToInsert(log, e, now)))
            else StateOf(db', ScopeOf(e)) == state
  {
    VerdictIs(s, e, now);
    EnqueueState(s.db, e, now, ScopeOf(e));
    if Inserts(VerdictOf(s.db, e, now)) {
      InsertedKeyIs(s, e, now, Of(s.accepted, ScopeOf(e)));
    }
    EnqueueReports(s.db, e, now);
    RecoveryReports(s.db, e, now);
  }

  /** The id a sent recovery stores is the id of its own row. */
  lemma RecoveryReports(db: Db, e: Event, now: Time)
    requires WellFormed(db)
    ensures var (db', id) := EnqueueTx(db, e, now);
            VerdictOf(db, e, now).Recover? && RuleOf(db, e).sendRecovery ==> Names(db', id, RecoveryKey(e, now))
  {
    if VerdictOf(db, e, now).Recover? && RuleOf(db, e).sendRecovery {
      ResolveEffect(WithRule(db, e), e, now);
      CreateEffect(ResolveAll(WithRule(db, e), e, now), e, "recovery", RecoveryKey(e, now), now, Some(now));
      RecoveryInsertion(db, e, now);
    }
  }

  // ---- the rows that are there --------------------------------------------------------

  /** The unresolved events of the recovery's rule; with a subject, those LIKE the recovery's own key. */
  predicate Reached(row: EventRow, e: Event) {
    row.key == e.key && row.resolvedAt.None? && (e.subject == "" || Like.Matches(e.dedupKey + "%", row.dedupKey))
  }

  /** Resolved under the recovery's rule at this very clock reading. */
  predicate JustResolved(row: EventRow, e: Event, now: Time) {
    row.key == e.key && row.resolvedAt == Some(now)
  }

  function EventAfter(row: EventRow, recovering: bool, e: Event, now: Time): EventRow {
    if recovering && Reached(row, e) then row.(status := Resolved, resolvedAt := Some(now)) else row
  }

  function DeliveryAfter(d: Delivery, row: EventRow, recovering: bool, e: Event, now: Time): Delivery {
    if recovering && d.status == Pending && (Reached(row, e) || JustResolved(row, e, now)) then d.(status := Cancelled) else d
  }

  /** The transaction is a recovery that is accepted. */
  predicate Recovering(log: seq<Acceptance>, rule: Rule, e: Event, now: Time) {
    Named(e) && !e.instant && e.recovery && Accepted(log, rule, e, now)
  }

  lemma AlertKeepsRows(db: Db, e: Event, now: Time)
    requires WellFormed(db) && !VerdictOf(db, e, now).Recover?
    ensures Recovery.RowsStay(db, EnqueueTx(db, e, now).0)
  {
    var v := VerdictOf(db, e, now);
    if Inserts(v) {
      CreatedRowsStay(WithRule(db, e), e, RuleOf(db, e).severity, KeyFor(v, e, now), now);
      AlertTables(db, e, now, v);
    }
  }

  lemma CreatedRowsStay(db: Db, e: Event, severity: string, key: string, now: Time)
    requires WellFormed(db)
    ensures Recovery.RowsStay(db, CreateEvent(db, e, severity, key, now, None).0)
  {
    CreateEffect(db, e, severity, key, now, None);
  }

  lemma AlertTables(db: Db, e: Event, now: Time, v: Verdict)
    requires v == VerdictOf(db, e, now) && Inserts(v) && !v.Recover?
    ensures var made := CreateEvent(WithRule(db, e), e, RuleOf(db, e).severity, KeyFor(v, e, now), now, None).0;
            var db' := EnqueueTx(db, e, now).0;
            db'.events == made.events && db'.deliveries == made.deliveries
  {
  }

  /** An Enqueue changes an event that is there if and only if it is an accepted recovery that reaches it, and a delivery
      that is there if and only if it is an accepted recovery, the delivery pending, and its event reached or resolved under
      the same rule at the same clock reading. */
  lemma OldRowsAre(db: Db, clock: Time, actions: seq<Action>, e: Event, now: Time)
    requires Empty(db) && Monotone(Start0(db, clock), actions)
    ensures var s := Run(Start0(db, clock), actions);
            var recovering := Recovering(Of(s.accepted, Scope(e.key, e.subject)), RuleInForce(s.db, e), e, now);
            var db' := Step(s, Enqueue(e, now)).db;
            && (forall id :: id in s.db.events ==>
                  id in db'.events && db'.events[id] == EventAfter(s.db.events[id], recovering, e, now))
            && (forall d :: d in s.db.deliveries ==>
                  && d in db'.deliveries && s.db.deliveries[d].eventId in s.db.events
                  && db'.deliveries[d] == DeliveryAfter(s.db.deliveries[d], s.db.events[s.db.deliveries[d].eventId], recovering, e, now))
  {
    var s := Run(Start0(db, clock), actions);
    ReachedIsShaped(db, clock, actions, ScopeOf(e));
    if Named(e) {
      VerdictIs(s, e, now);
      if VerdictOf(s.db, e, now).Recover? {
        RecoveredRowsAre(s.db, e, now);
      } else {
        AlertKeepsRows(s.db, e, now);
      }
    }
  }

  lemma RecoveredRowsAre(db: Db, e: Event, now: Time)
    requires WellFormed(db) && VerdictOf(db, e, now).Recover?
    ensures var db' := EnqueueTx(db, e, now).0;
            && (forall id :: id in db.events ==> id in db'.events && db'.events[id] == EventAfter(db.events[id], true, e, now))
            && (forall d :: d in db.deliveries ==>
                  && d in db'.deliveries
                  && db'.deliveries[d] == DeliveryAfter(db.deliveries[d], db.events[db.deliveries[d].eventId], true, e, now))
  {
    Recovery.RowsAfterRecovery(db, e, now);
  }
}
