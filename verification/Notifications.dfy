/** The notification service over its tables: the methods of service.go, each proved against the
    transaction or the machine steps it stands for. */
module Notifications {
  import opened Common
  import opened Store
  import opened Alerts
  import opened Worker
  import opened Drain
  import opened Process
  import opened Refinement

  predicate NothingDue(deliveries: map<nat, Delivery>, now: Time) {
    forall id :: id in deliveries ==> !Due(deliveries[id], now)
  }

  class Service {
    var rules: map<string, Rule>
    var states: map<Scope, State>
    var events: map<nat, EventRow>
    var deliveries: map<nat, Delivery>
    var recipients: seq<Recipient>
    var links: set<(string, nat)>
    var retryCount: int
    var nextEvent: nat
    var nextDelivery: nat

    function Tables(): Db
      reads this
    {
      Db(rules, states, events, deliveries, recipients, links, retryCount, nextEvent, nextDelivery)
    }

    ghost predicate Valid()
      reads this
    {
      Sound(Tables())
    }

    constructor (db: Db)
      ensures Tables() == db
    {
      rules, states, events, deliveries := db.rules, db.states, db.events, db.deliveries;
      recipients, links, retryCount, nextEvent, nextDelivery :=
        db.recipients, db.links, db.retryCount, db.nextEvent, db.nextDelivery;
    }

    // ---- Enqueue ----------------------------------------------------------------------

    /** One transaction: the tables after it and the id it returns are those of EnqueueTx. */
    method Enqueue(e: Event, now: Time) returns (r: Result<nat, string>)
      modifies this
      ensures r.Ok? <==> ValidEvent(e)
      ensures if r.Ok? then (Tables(), r.value) == EnqueueTx(old(Tables()), e, now) else Tables() == old(Tables())
      ensures old(Valid()) ==> Valid()
    {
      if e.key == "" || e.severity == "" || e.dedupKey == "" {
        return Err("invalid notification event");
      }
      ghost var before := Tables();
      var id := Transact(e, now);
      if Sound(before) {
        EnqueueKeeps(before, e, now);
      }
      r := Ok(id);
    }

    method Transact(e: Event, now: Time) returns (id: nat)
      modifies this
      ensures (Tables(), id) == EnqueueTx(old(Tables()), e, now)
    {
      if e.key !in rules {
        rules := rules[e.key := DefaultRule(e.severity)];
      }
      var rule := rules[e.key];
      assert Tables() == WithRule(old(Tables()), e);
      if !rule.enabled {
        return 0;
      }
      if e.instant {
        id := CreateEvent(e, rule.severity, e.dedupKey, now, None);
        return;
      }
      id := TransactScope(e, rule, now, old(Tables()));
    }

    /** The part of the transaction that reads and writes the scope's alert state. */
    method TransactScope(e: Event, rule: Rule, now: Time, ghost db: Db) returns (id: nat)
      requires Tables() == WithRule(db, e) && rule == RuleOf(db, e) && rule.enabled && !e.instant
      modifies this
      ensures (Tables(), id) == EnqueueTx(db, e, now)
    {
      var scope := ScopeOf(e);
      if scope !in states {
        states := states[scope := BLANK_STATE];
      }
      var state := states[scope];
      assert Tables() == WithState(WithRule(db, e), scope, state);
      if e.recovery {
        id := EnqueueRecovery(e, rule, state, now);
        return;
      }
      id := TransactAlert(e, rule, state, now, db);
    }

    /** Suppress the alert, or accept it. */
    method TransactAlert(e: Event, rule: Rule, state: State, now: Time, ghost db: Db) returns (id: nat)
      requires rule == RuleOf(db, e) && rule.enabled && !e.instant && !e.recovery
      requires state == StateOf(db, ScopeOf(e)) && Tables() == WithState(WithRule(db, e), ScopeOf(e), state)
      modifies this
      ensures (Tables(), id) == EnqueueTx(db, e, now)
    {
      if state.active && state.lastNotifiedAt.Some? {
        if rule.repeatEvery <= 0 || now < state.lastNotifiedAt.value + rule.repeatEvery * SECOND {
          return state.lastEventId.GetOr(0);
        }
      } else if !state.active && state.resolvedAt.Some? && rule.cooldown > 0
                && now < state.resolvedAt.value + rule.cooldown * SECOND {
        return state.lastEventId.GetOr(0);
      }
      ghost var ruled := WithRule(db, e);
      id := Accept(e, rule, state, now);
      ghost var key := if state.active then RepeatKey(e, now) else e.dedupKey;
      ghost var scope := ScopeOf(e);
      CreateIgnoresStates(ruled, scope, state, e, rule.severity, key, now, None);
      assert ruled.states[scope := state][scope := states[scope]] == ruled.states[scope := states[scope]];
    }

    /** The accepting end of the transaction: insert the event and make the scope active. */
    method Accept(e: Event, rule: Rule, state: State, now: Time) returns (id: nat)
      requires ScopeOf(e) in states && states[ScopeOf(e)] == state
      modifies this
      ensures
        var key := if state.active then RepeatKey(e, now) else e.dedupKey;
        var (made, mid) := Alerts.CreateEvent(old(Tables()), e, rule.severity, key, now, None);
        Tables() == WithState(made, ScopeOf(e), Triggered(state, e, mid, now)) && id == mid
    {
      var dedupKey := e.dedupKey;
      if state.active {
        dedupKey := RepeatKey(e, now);
      }
      id := CreateEvent(e, rule.severity, dedupKey, now, None);
      var last := if state.active then state.lastTriggeredAt else Some(now);
      states := states[ScopeOf(e) := State(true, Some(e.dedupKey), Some(id), last, Some(now), None)];
    }

    method CreateEvent(e: Event, severity: string, dedupKey: string, now: Time, resolvedAt: Option<Time>) returns (id: nat)
      modifies this
      ensures (Tables(), id) == Alerts.CreateEvent(old(Tables()), e, severity, dedupKey, now, resolvedAt)
    {
      var found := FindDedup(events, dedupKey, nextEvent);
      if found.Some? {
        return found.value;
      }
      id := nextEvent;
      events := events[id := EventRow(e.key, severity, dedupKey, Queued, now, resolvedAt)];
      nextEvent := nextEvent + 1;
      assert Chosen(Tables(), e.audience, e.key) == Chosen(old(Tables()), e.audience, e.key);
      CreateDeliveries(e.audience, e.key, id, now);
      assert events == old(events)[id := events[id]];
    }

    /** Deliveries for every chosen recipient, or the status "skipped" when there is none. */
    method CreateDeliveries(audience: string, key: string, eventId: nat, now: Time)
      requires eventId in events
      modifies this`events, this`deliveries, this`nextDelivery
      ensures var to := Chosen(old(Tables()), audience, key);
              && deliveries == InsertDeliveries(old(deliveries), old(nextDelivery), eventId, to, now)
              && nextDelivery == old(nextDelivery) + |to|
              && events == if to == [] then old(events)[eventId := old(events)[eventId].(status := Skipped)] else old(events)
    {
      var to := Chosen(Tables(), audience, key);
      if |to| == 0 {
        events := events[eventId := events[eventId].(status := Skipped)];
        return;
      }
      for i := 0 to |to|
        invariant deliveries == InsertDeliveries(old(deliveries), old(nextDelivery), eventId, to[..i], now)
        invariant nextDelivery == old(nextDelivery) + i && events == old(events)
      {
        CreateDelivery(eventId, to, i, now, old(deliveries), old(nextDelivery));
      }
      assert to[..|to|] == to;
    }

    /** One turn of that loop. */
    method CreateDelivery(eventId: nat, to: seq<nat>, i: nat, now: Time, ghost before: map<nat, Delivery>, ghost first: nat)
      requires i < |to| && nextDelivery == first + i
      requires deliveries == InsertDeliveries(before, first, eventId, to[..i], now)
      modifies this`deliveries, this`nextDelivery
      ensures deliveries == InsertDeliveries(before, first, eventId, to[..i + 1], now) && nextDelivery == first + i + 1
    {
      InsertOneMore(before, first, eventId, to, i, now);
      deliveries := deliveries[nextDelivery := NewDelivery(eventId, to[i], now)];
      nextDelivery := nextDelivery + 1;
    }

    method EnqueueRecovery(e: Event, rule: Rule, state: State, now: Time) returns (id: nat)
      requires ScopeOf(e) in states && states[ScopeOf(e)] == state
      modifies this
      ensures
        var db, scope := old(Tables()), ScopeOf(e);
        if !state.active then Tables() == db && id == 0
        else
          var cleared := ResolveAll(db, e, now);
          if rule.sendRecovery then
            var (made, mid) := Alerts.CreateEvent(cleared, e, "recovery", RecoveryKey(e, now), now, Some(now));
            Tables() == WithState(made, scope, Recovered(state, rule, mid, now)) && id == mid
          else Tables() == WithState(cleared, scope, Recovered(state, rule, 0, now)) && id == 0
    {
      if !state.active {
        return 0;
      }
      events := ResolveEvents(events, e, now);
      deliveries := CancelPending(deliveries, events, e.key, now);
      var updated := state.(active := false, activeDedupKey := None, resolvedAt := Some(now));
      if !rule.sendRecovery {
        states := states[ScopeOf(e) := updated];
        return 0;
      }
      id := CreateEvent(e, "recovery", RecoveryKey(e, now), now, Some(now));
      states := states[ScopeOf(e) := updated.(lastEventId := Some(id), lastNotifiedAt := Some(now))];
    }
  
    // ---- the worker -------------------------------------------------------------------

    /** updateNotificationRule: an unknown rule or an unknown recipient is refused. */
    method UpdateRule(key: string, rule: Rule, chosen: set<nat>)
      modifies this
      ensures Tables() == AdminDb(old(Tables()), SetRule(key, rule, chosen))
    {
      if key !in rules || exists id :: id in chosen && !KnownRecipient(Tables(), id) {
        return;
      }
      rules := rules[key := rule];
      links := LinksAfter(links, key, chosen);
    }

    /** Creating, changing or deleting recipients, as far as the deliveries' foreign key lets it. */
    method UpdateRecipients(rs: seq<Recipient>)
      modifies this
      ensures Tables() == AdminDb(old(Tables()), SetRecipients(rs))
    {
      if MayBecome(Tables(), rs) {
        recipients := rs;
        links := LinksOf(links, rs);
      }
    }

    /** One transaction of another goroutine. */
    method Perform(d: Deed)
      modifies this
      ensures forall s: Sys :: s.db == old(Tables()) ==> DeedStep(s, d).db == Tables()
    {
      match d
      case Alert(e, now) => var _ := Enqueue(e, now);
      case RuleEdit(key, rule, chosen) => UpdateRule(key, rule, chosen);
      case RecipientEdit(rs) => UpdateRecipients(rs);
      case RetryEdit(n) => retryCount := n;
    }

    /** The transactions other goroutines run before the worker's next statement. */
    method Interleave(gap: seq<Deed>, ghost s: Sys)
      requires s.db == Tables()
      modifies this
      ensures Tables() == Burst(s, gap).db && Burst(s, gap).phase == s.phase
    {
      for k := 0 to |gap|
        invariant Tables() == Burst(s, gap[..k]).db
      {
        assert gap[..k + 1][..k] == gap[..k];
        Perform(gap[k]);
      }
      assert gap[..|gap|] == gap;
      BurstKeepsPhase(s, gap);
    }

    method ProcessOnce(plan: Plan, ghost s: Sys) returns (processed: bool, failed: bool)
      requires s.db == Tables() && s.phase.Idle?
      modifies this
      ensures var end := Process.ProcessOnce(s, plan); Tables() == end.sys.db && processed == end.processed && failed == end.failed
    {
      Interleave(Gap(plan, 0), s);
      if plan.stop == AtRead {
        return false, true;
      }
      var due := FirstDue(deliveries, 0, nextDelivery, plan.now);
      ghost var s1 := ReadStep(Interrupted(s, plan, 0), plan.now);
      if due.None? {
        return false, false;
      }
      processed, failed := Claim(plan, due.value, deliveries[due.value], s1);
    }

    /** The conditional UPDATE that takes the row from "pending" to "sending". */
    method Claim(plan: Plan, id: nat, row: Delivery, ghost s: Sys) returns (processed: bool, failed: bool)
      requires s.db == Tables() && s.phase == ToClaim(plan.now, id, row)
      modifies this
      ensures var end := ClaimOnward(s, plan); Tables() == end.sys.db && processed == end.processed && failed == end.failed
    {
      Interleave(Gap(plan, 1), s);
      if plan.stop == AtClaim {
        return false, true;
      }
      if id !in deliveries || deliveries[id].status != Pending {
        return true, false;
      }
      deliveries := deliveries[id := deliveries[id].(status := Sending)];
      processed, failed := LookUp(plan, id, row, ClaimStep(Interrupted(s, plan, 1)));
    }

    /** Look up the event, then the recipient, each in a statement of its own. */
    method LookUp(plan: Plan, id: nat, row: Delivery, ghost s: Sys) returns (processed: bool, failed: bool)
      requires s.db == Tables() && s.phase == ToLoad(plan.now, id, row, 0)
      modifies this
      ensures var end := LookUpOnward(s, plan, 0); Tables() == end.sys.db && processed == end.processed && failed == end.failed
    {
      Interleave(Gap(plan, 2), s);
      if plan.stop == AtLookup(0) || row.eventId !in events {
        return true, true;
      }
      processed, failed := LookUpRecipient(plan, id, row, LoadStep(Interrupted(s, plan, 2)));
    }

    method LookUpRecipient(plan: Plan, id: nat, row: Delivery, ghost s: Sys) returns (processed: bool, failed: bool)
      requires s.db == Tables() && s.phase == ToLoad(plan.now, id, row, 1)
      modifies this
      ensures var end := LookUpOnward(s, plan, 1); Tables() == end.sys.db && processed == end.processed && failed == end.failed
    {
      Interleave(Gap(plan, 3), s);
      if plan.stop == AtLookup(1) || !KnownRecipient(Tables(), row.recipientId) {
        return true, true;
      }
      processed, failed := Send(plan, id, row, LoadStep(Interrupted(s, plan, 3)));
    }

    /** Read the settings row, which always exists, and send. */
    method Send(plan: Plan, id: nat, row: Delivery, ghost s: Sys) returns (processed: bool, failed: bool)
      requires s.db == Tables() && s.phase == ToLoad(plan.now, id, row, 2)
      modifies this
      ensures var end := LookUpOnward(s, plan, 2); Tables() == end.sys.db && processed == end.processed && failed == end.failed
    {
      Interleave(Gap(plan, 4), s);
      if plan.stop == AtLookup(2) {
        return true, true;
      }
      ghost var s3 := LoadStep(Interrupted(s, plan, 4));
      var retry := retryCount;
      Interleave(Gap(plan, 5), s3);
      processed, failed := Record(plan, id, row, retry, SendStep(Interrupted(s3, plan, 5), plan.sent));
    }

    /** Record the outcome of the send on the row. */
    method Record(plan: Plan, id: nat, row: Delivery, retry: int, ghost s: Sys) returns (processed: bool, failed: bool)
      requires s.db == Tables() && s.phase == ToRecord(plan.now, id, row, retry, plan.sent)
      modifies this
      ensures var end := RecordOnward(s, plan); Tables() == end.sys.db && processed == end.processed && failed == end.failed
    {
      Interleave(Gap(plan, 6), s);
      if plan.stop == AtRecord {
        return true, true;
      }
      ghost var s5 := RecordStep(Interrupted(s, plan, 6));
      var attempts := row.attempts + 1;
      if id in deliveries {
        var d := deliveries[id];
        if !plan.sent {
          var status := Pending;
          if attempts > retry {
            status := Failed;
          }
          d := d.(status := status, attempts := attempts, nextAttemptAt := Some(plan.now + Backoff(attempts)));
        } else {
          d := d.(status := Delivered, attempts := attempts, deliveredAt := Some(plan.now));
        }
        deliveries := deliveries[id := d];
      }
      processed := true;
      failed := UpdateEventStatus(plan, row.eventId, s5);
    }

    /** Count, count again, and write the status, each a statement of its own. */
    method UpdateEventStatus(plan: Plan, eventId: nat, ghost s: Sys) returns (failed: bool)
      requires s.db == Tables() && s.phase == ToCountOpen(plan.now, eventId)
      modifies this
      ensures var end := CountOnward(s, plan); Tables() == end.sys.db && failed == end.failed
    {
      Interleave(Gap(plan, 7), s);
      if plan.stop == AtCount(0) {
        return true;
      }
      var open := |OpenOf(deliveries, eventId)|;
      failed := CountFailures(plan, eventId, open, CountStep(Interrupted(s, plan, 7), false));
    }

    method CountFailures(plan: Plan, eventId: nat, open: nat, ghost s: Sys) returns (failed: bool)
      requires s.db == Tables() && s.phase == ToCountFailed(plan.now, eventId, open)
      modifies this
      ensures var end := CountAgainOnward(s, plan); Tables() == end.sys.db && failed == end.failed
    {
      Interleave(Gap(plan, 8), s);
      if plan.stop == AtCount(1) {
        return true;
      }
      var failures := |FailedOf(deliveries, eventId)|;
      failed := WriteEventStatus(plan, eventId, open, failures, CountStep(Interrupted(s, plan, 8), true));
    }

    method WriteEventStatus(plan: Plan, eventId: nat, open: nat, failures: nat, ghost s: Sys) returns (failed: bool)
      requires s.db == Tables() && s.phase == ToWrite(plan.now, eventId, open, failures)
      modifies this
      ensures var end := WriteOnward(s, plan); Tables() == end.sys.db && failed == end.failed
    {
      Interleave(Gap(plan, 9), s);
      if plan.stop == AtWrite {
        return true;
      }
      var status := Sent;
      if open > 0 {
        status := Queued;
      } else if failures > 0 {
        status := Undelivered;
      }
      if eventId in events && events[eventId].status != Resolved {
        events := events[eventId := events[eventId].(status := status)];
      }
      failed := false;
    }

    /** The inner loop of Run: call ProcessOnce until it makes no progress. Without new events it ends after at
        most as many productive rounds as the pending deliveries have claims left. */
    method DrainQueue(plans: nat -> Plan) returns (rounds: nat)
      requires Valid() && forall i :: Undisturbed(plans(i))
      modifies this
      ensures Valid() && rounds + ClaimsLeft(Tables()) <= old(ClaimsLeft(Tables()))
      ensures plans(rounds).stop == Nowhere ==> NothingDue(deliveries, plans(rounds).now)
    {
      rounds := 0;
      var processed := true;
      var failed := false;
      while processed
        invariant Valid() && rounds + ClaimsLeft(Tables()) <= old(ClaimsLeft(Tables()))
        invariant !processed && !failed ==> NothingDue(deliveries, plans(rounds).now)
        invariant failed && !processed ==> plans(rounds).stop != Nowhere
        decreases ClaimsLeft(Tables()) + if processed then 1 else 0
      {
        processed, failed := Round(plans(rounds));
        if processed {
          rounds := rounds + 1;
        }
      }
    }

    /** One round of that loop. */
    method Round(plan: Plan) returns (processed: bool, failed: bool)
      requires Valid() && Undisturbed(plan)
      modifies this
      ensures Valid() && ClaimsLeft(Tables()) <= old(ClaimsLeft(Tables()))
      ensures processed ==> ClaimsLeft(Tables()) < old(ClaimsLeft(Tables()))
      ensures !processed && !failed ==> NothingDue(deliveries, plan.now)
      ensures !processed && failed ==> plan.stop != Nowhere
    {
      ghost var s := Start0(Tables(), 0);
      ProcessIsGood(s, plan);
      ProcessLowers(s, plan);
      IdleRound(s, plan);
      processed, failed := ProcessOnce(plan, s);
    }

    /** What a restarted service does first. */
    method RecoverInFlight(now: Time)
      modifies this
      ensures Tables() == old(Tables()).(deliveries := deliveries) && deliveries.Keys == old(deliveries).Keys
      ensures forall id :: id in deliveries ==>
                var row, was := deliveries[id], old(deliveries)[id];
                if was.status == Sending
                then row == was.(status := Pending, nextAttemptAt := Some(now)) && Due(row, now) else row == was
      ensures Tables() == Requeue(old(Tables()), now)
    {
      deliveries := RequeueSending(deliveries, now);
    }
  }

  /** A round that makes no progress changes nothing, and fails only at a statement that fails. */
  lemma IdleRound(s: Sys, plan: Plan)
    requires Undisturbed(plan) && s.phase.Idle?
    ensures var end := Process.ProcessOnce(s, plan);
            !end.processed ==> end.sys.db == s.db && (end.failed ==> plan.stop != Nowhere)
  {
    NoInterruption(s, plan, 0);
    NoInterruption(ReadStep(s, plan.now), plan, 1);
  }

  lemma InsertOneMore(deliveries: map<nat, Delivery>, next: nat, eventId: nat, to: seq<nat>, i: nat, now: Time)
    requires i < |to|
    ensures InsertDeliveries(deliveries, next, eventId, to[..i + 1], now) ==
            InsertDeliveries(deliveries, next, eventId, to[..i], now)[next + i := NewDelivery(eventId, to[i], now)]
  {
    assert to[..i + 1][..i] == to[..i];
  }

  /** Inserting an event does not look at the state rows. */
  lemma CreateIgnoresStates(db: Db, scope: Scope, state: State, e: Event, severity: string, dedupKey: string, now: Time, resolvedAt: Option<Time>)
    ensures var (made, id) := Alerts.CreateEvent(db, e, severity, dedupKey, now, resolvedAt);
            Alerts.CreateEvent(WithState(db, scope, state), e, severity, dedupKey, now, resolvedAt)
              == (made.(states := db.states[scope := state]), id)
  {
  }
}
