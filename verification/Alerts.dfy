/** The Enqueue transaction as a function of the tables, and what every such transaction keeps. */
module Alerts {
  import opened Common
  import opened Store
  import Decimal

  /** What one Enqueue decides about its event. */
  datatype Verdict =
    | Off          // the rule is disabled
    | OneShot      // an instant event
    | Quiet        // a recovery with nothing active
    | Suppressed   // inside the repeat interval or the cooldown
    | Trigger      // the scope becomes active
    | Repeat       // the scope is active and the repeat interval has passed
    | Recover      // the scope becomes inactive

  predicate ValidEvent(e: Event) {
    e.key != "" && e.severity != "" && e.dedupKey != ""
  }

  function Decide(rule: Rule, state: State, e: Event, now: Time): Verdict {
    if !rule.enabled then Off
    else if e.instant then OneShot
    else if e.recovery then (if state.active then Recover else Quiet)
    else if state.active && state.lastNotifiedAt.Some? then
      if rule.repeatEvery <= 0 || now < state.lastNotifiedAt.value + rule.repeatEvery * SECOND then Suppressed else Repeat
    else if !state.active && state.resolvedAt.Some? && rule.cooldown > 0
            && now < state.resolvedAt.value + rule.cooldown * SECOND then Suppressed
    else if state.active then Repeat
    else Trigger
  }

  function VerdictOf(db: Db, e: Event, now: Time): Verdict {
    Decide(RuleOf(db, e), StateOf(db, ScopeOf(e)), e, now)
  }

  function Stamped(dedupKey: string, tag: string, now: Time): string {
    dedupKey + ":" + tag + ":" + Decimal.Show(now)
  }

  function RepeatKey(e: Event, now: Time): string {
    Stamped(e.dedupKey, "repeat", now)
  }

  function RecoveryKey(e: Event, now: Time): string {
    Stamped(e.dedupKey, "recovery", now)
  }

  /** Insert the event with its deliveries, or on a dedup conflict only find the row that is there. */
  function CreateEvent(db: Db, e: Event, severity: string, dedupKey: string, now: Time, resolvedAt: Option<Time>)
    : (r: (Db, nat))
  {
    var found := FindDedup(db.events, dedupKey, db.nextEvent);
    if found.Some? then (db, found.value)
    else
      var id := db.nextEvent;
      var to := Chosen(db, e.audience, e.key);
      var row := EventRow(e.key, severity, dedupKey, if to == [] then Skipped else Queued, now, resolvedAt);
      (db.(events := db.events[id := row], nextEvent := id + 1,
           deliveries := InsertDeliveries(db.deliveries, db.nextDelivery, id, to, now),
           nextDelivery := db.nextDelivery + |to|), id)
  }

  /** Resolve the matching events and cancel what is still pending on them. */
  function ResolveAll(db: Db, e: Event, now: Time): Db {
    var events := ResolveEvents(db.events, e, now);
    db.(events := events, deliveries := CancelPending(db.deliveries, events, e.key, now))
  }

  function WithRule(db: Db, e: Event): Db {
    db.(rules := db.rules[e.key := RuleOf(db, e)])
  }

  function WithState(db: Db, scope: Scope, state: State): Db {
    db.(states := db.states[scope := state])
  }

  function Triggered(state: State, e: Event, id: nat, now: Time): State {
    state.(active := true, activeDedupKey := Some(e.dedupKey), lastEventId := Some(id), lastNotifiedAt := Some(now),
           resolvedAt := None, lastTriggeredAt := if state.active then state.lastTriggeredAt else Some(now))
  }

  function Recovered(state: State, rule: Rule, id: nat, now: Time): State {
    var s := state.(active := false, activeDedupKey := None, resolvedAt := Some(now));
    if rule.sendRecovery then s.(lastEventId := Some(id), lastNotifiedAt := Some(now)) else s
  }

  /** The whole transaction: the tables after it and the event id it reports (0 for none). */
  function EnqueueTx(db0: Db, e: Event, now: Time): (Db, nat) {
    var rule := RuleOf(db0, e);
    var scope := ScopeOf(e);
    var state := StateOf(db0, scope);
    var db := WithRule(db0, e);
    match Decide(rule, state, e, now)
    case Off => (db, 0)
    case OneShot => CreateEvent(db, e, rule.severity, e.dedupKey, now, None)
    case Quiet => (WithState(db, scope, state), 0)
    case Suppressed => (WithState(db, scope, state), state.lastEventId.GetOr(0))
    case Trigger =>
      var (made, id) := CreateEvent(db, e, rule.severity, e.dedupKey, now, None);
      (WithState(made, scope, Triggered(state, e, id, now)), id)
    case Repeat =>
      var (made, id) := CreateEvent(db, e, rule.severity, RepeatKey(e, now), now, None);
      (WithState(made, scope, Triggered(state, e, id, now)), id)
    case Recover =>
      var cleared := ResolveAll(db, e, now);
      if rule.sendRecovery then
        var (made, id) := CreateEvent(cleared, e, "recovery", RecoveryKey(e, now), now, Some(now));
        (WithState(made, scope, Recovered(state, rule, id, now)), id)
      else (WithState(cleared, scope, Recovered(state, rule, 0, now)), 0)
  }

  /** The dedup key under which an accepting verdict inserts its event. */
  function KeyFor(v: Verdict, e: Event, now: Time): string {
    match v
    case Repeat => RepeatKey(e, now)
    case Recover => RecoveryKey(e, now)
    case _ => e.dedupKey
  }

  function SeverityFor(v: Verdict, rule: Rule): string {
    if v.Recover? then "recovery" else rule.severity
  }

  // ---- what the tables always satisfy -------------------------------------------------

  ghost predicate WellFormed(db: Db) {
    && 1 <= db.nextEvent
    && (forall id :: id in db.events ==> 1 <= id < db.nextEvent)
    && (forall id :: id in db.deliveries ==> id < db.nextDelivery && db.deliveries[id].eventId in db.events)
    && DistinctIds(db.recipients)
  }

  ghost predicate UniqueKeys(db: Db) {
    forall a, b :: a in db.events && b in db.events && db.events[a].dedupKey == db.events[b].dedupKey ==> a == b
  }

  predicate SamePair(a: Delivery, b: Delivery) {
    a.eventId == b.eventId && a.recipientId == b.recipientId
  }

  ghost predicate OncePerRecipient(db: Db) {
    forall a, b :: a in db.deliveries && b in db.deliveries && SamePair(db.deliveries[a], db.deliveries[b]) ==> a == b
  }

  /** How one transaction may change one existing event row. */
  ghost predicate EventStays(old_: EventRow, new_: EventRow, e: Event, now: Time) {
    new_ == old_ || (Recovers(old_, e) && new_ == old_.(status := Resolved, resolvedAt := Some(now)))
  }

  /** How one transaction may change one existing delivery row. */
  ghost predicate DeliveryStays(old_: Delivery, new_: Delivery, events: map<nat, EventRow>, key: string, now: Time) {
    new_ == old_ || (old_.status == Pending && ResolvedAtNow(events, old_.eventId, key, now) && new_ == old_.(status := Cancelled))
  }

  /** Everything a transaction may do to events and deliveries, whatever it decides. */
  ghost predicate Effect(db: Db, db': Db, e: Event, now: Time) {
    && SameConfig(db, db')
    && db.nextEvent <= db'.nextEvent && db.nextDelivery <= db'.nextDelivery
    && EventsMove(db, db', e, now)
    && DeliveriesMove(db, db', e, now)
    && (if db'.nextEvent == db.nextEvent then db'.nextDelivery == db.nextDelivery else Inserted(db, db', e, now))
  }

  ghost predicate SameConfig(db: Db, db': Db) {
    db'.recipients == db.recipients && db'.links == db.links && db'.retryCount == db.retryCount
  }

  ghost predicate EventsMove(db: Db, db': Db, e: Event, now: Time) {
    && (forall id :: id in db'.events <==> id in db.events || db.nextEvent <= id < db'.nextEvent)
    && (forall id :: id in db.events ==> EventStays(db.events[id], db'.events[id], e, now))
  }

  ghost predicate DeliveriesMove(db: Db, db': Db, e: Event, now: Time) {
    && (forall id :: id in db'.deliveries <==> id in db.deliveries || db.nextDelivery <= id < db'.nextDelivery)
    && (forall id :: id in db.deliveries ==>
          DeliveryStays(db.deliveries[id], db'.deliveries[id], db'.events, e.key, now))
  }

  predicate Inserts(v: Verdict) {
    v.OneShot? || v.Trigger? || v.Repeat? || v.Recover?
  }

  /** The one event a transaction inserts, and its deliveries. */
  ghost predicate Inserted(db: Db, db': Db, e: Event, now: Time) {
    var v := VerdictOf(db, e, now);
    && Inserts(v)
    && InsertedAs(db, db', e.key, SeverityFor(v, RuleOf(db, e)), KeyFor(v, e, now), Chosen(db, e.audience, e.key), now,
                  if v.Recover? then Some(now) else None)
  }

  ghost predicate InsertedAs(db: Db, db': Db, key: string, severity: string, dedupKey: string, to: seq<nat>, now: Time,
                             resolvedAt: Option<Time>) {
    && db'.nextEvent == db.nextEvent + 1 && db'.nextDelivery == db.nextDelivery + |to|
    && db.nextEvent in db'.events
    && NewRow(db'.events[db.nextEvent], key, severity, dedupKey, to, now, resolvedAt)
    && (forall id :: id in db.events ==> db.events[id].dedupKey != dedupKey)
    && (forall id :: db.nextDelivery <= id < db'.nextDelivery ==>
          id in db'.deliveries && db'.deliveries[id] == NewDelivery(db.nextEvent, to[id - db.nextDelivery], now))
  }

  predicate NewRow(row: EventRow, key: string, severity: string, dedupKey: string, to: seq<nat>, now: Time,
                   resolvedAt: Option<Time>) {
    && row.key == key && row.severity == severity && row.dedupKey == dedupKey && row.createdAt == now
    && row.status == (if to == [] then Skipped else Queued)
    && row.resolvedAt == resolvedAt
  }

  lemma CreateEffect(db: Db, e: Event, severity: string, dedupKey: string, now: Time, resolvedAt: Option<Time>)
    requires WellFormed(db)
    ensures var (made, id) := CreateEvent(db, e, severity, dedupKey, now, resolvedAt);
            && id in made.events && made.events[id].dedupKey == dedupKey
            && (made == db || (id == db.nextEvent && Adds(db, made, e, severity, dedupKey, now, resolvedAt)))
  {
    var found := FindDedup(db.events, dedupKey, db.nextEvent);
    if found.Some? {
      assert found.value in db.events && db.events[found.value].dedupKey == dedupKey;
    }
  }

  /** CreateEvent without a dedup conflict. */
  ghost predicate Adds(db: Db, db': Db, e: Event, severity: string, dedupKey: string, now: Time, resolvedAt: Option<Time>) {
    && SameConfig(db, db')
    && (forall id :: id in db'.events <==> id in db.events || id == db.nextEvent)
    && (forall id :: id in db.events ==> db'.events[id] == db.events[id])
    && (forall id :: id in db'.deliveries <==> id in db.deliveries || db.nextDelivery <= id < db'.nextDelivery)
    && (forall id :: id in db.deliveries ==> db'.deliveries[id] == db.deliveries[id])
    && InsertedAs(db, db', e.key, severity, dedupKey, Chosen(db, e.audience, e.key), now, resolvedAt)
  }

  /** The tables but for rules and alert states. */
  ghost predicate SameQueue(db: Db, db': Db) {
    && db'.events == db.events && db'.deliveries == db.deliveries && SameConfig(db, db')
    && db'.nextEvent == db.nextEvent && db'.nextDelivery == db.nextDelivery
  }

  lemma EffectCarries(db: Db, mid: Db, db': Db, e: Event, now: Time)
    requires Effect(db, mid, e, now) && SameQueue(mid, db')
    ensures Effect(db, db', e, now)
  {
  }

  lemma ResolveEffect(db: Db, e: Event, now: Time)
    requires WellFormed(db)
    ensures Effect(db, ResolveAll(db, e, now), e, now)
    ensures WellFormed(ResolveAll(db, e, now))
  {
    var cleared := ResolveAll(db, e, now);
    forall id | id in db.events ensures EventStays(db.events[id], cleared.events[id], e, now) {}
  }

  /** Adding after a step that inserted nothing. */
  lemma AddEffect(db: Db, mid: Db, db': Db, e: Event, severity: string, dedupKey: string, now: Time, resolvedAt: Option<Time>)
    requires WellFormed(mid) && mid.nextEvent == db.nextEvent && mid.nextDelivery == db.nextDelivery
    requires SameConfig(db, mid) && EventsMove(db, mid, e, now) && DeliveriesMove(db, mid, e, now)
    requires Adds(mid, db', e, severity, dedupKey, now, resolvedAt)
    ensures SameConfig(db, db') && EventsMove(db, db', e, now) && DeliveriesMove(db, db', e, now)
    ensures InsertedAs(db, db', e.key, severity, dedupKey, Chosen(db, e.audience, e.key), now, resolvedAt)
  {
    assert Chosen(mid, e.audience, e.key) == Chosen(db, e.audience, e.key);
    forall id | id in db.events
      ensures EventStays(db.events[id], db'.events[id], e, now) && db.events[id].dedupKey != dedupKey
    {
      assert EventStays(db.events[id], mid.events[id], e, now);
      assert id in mid.events;
    }
    forall id | id in db.deliveries
      ensures DeliveryStays(db.deliveries[id], db'.deliveries[id], db'.events, e.key, now)
    {
      assert DeliveryStays(db.deliveries[id], mid.deliveries[id], mid.events, e.key, now);
      assert id in mid.deliveries;
    }
  }

  lemma InsertEffect(db: Db, mid: Db, e: Event, severity: string, now: Time, resolvedAt: Option<Time>, v: Verdict, dedupKey: string)
    requires WellFormed(mid) && mid.nextEvent == db.nextEvent && Effect(db, mid, e, now)
    requires v == VerdictOf(db, e, now) && Inserts(v) && dedupKey == KeyFor(v, e, now)
    requires resolvedAt == (if v.Recover? then Some(now) else None) && severity == SeverityFor(v, RuleOf(db, e))
    ensures Effect(db, CreateEvent(mid, e, severity, dedupKey, now, resolvedAt).0, e, now)
  {
    var made := CreateEvent(mid, e, severity, dedupKey, now, resolvedAt).0;
    CreateEffect(mid, e, severity, dedupKey, now, resolvedAt);
    if made != mid {
      AddEffect(db, mid, made, e, severity, dedupKey, now, resolvedAt);
    }
  }

  lemma RecoverEffect(db: Db, e: Event, now: Time)
    requires WellFormed(db) && VerdictOf(db, e, now).Recover?
    ensures Effect(db, EnqueueTx(db, e, now).0, e, now)
  {
    var ruled := WithRule(db, e);
    ResolveEffect(ruled, e, now);
    var cleared := ResolveAll(ruled, e, now);
    assert Effect(db, cleared, e, now);
    var key := RecoveryKey(e, now);
    InsertEffect(db, cleared, e, "recovery", now, Some(now), Recover, key);
    var last := if RuleOf(db, e).sendRecovery then CreateEvent(cleared, e, "recovery", key, now, Some(now)).0 else cleared;
    EffectCarries(db, last, EnqueueTx(db, e, now).0, e, now);
  }

  lemma AlertEffect(db: Db, e: Event, now: Time)
    requires WellFormed(db)
    requires var v := VerdictOf(db, e, now); v.OneShot? || v.Trigger? || v.Repeat?
    ensures Effect(db, EnqueueTx(db, e, now).0, e, now)
  {
    var ruled := WithRule(db, e);
    var v := VerdictOf(db, e, now);
    var key := KeyFor(v, e, now);
    InsertEffect(db, ruled, e, RuleOf(db, e).severity, now, None, v, key);
    EffectCarries(db, CreateEvent(ruled, e, RuleOf(db, e).severity, key, now, None).0, EnqueueTx(db, e, now).0, e, now);
  }

  /** Every transaction stays within Effect. */
  lemma EnqueueEffect(db: Db, e: Event, now: Time)
    requires WellFormed(db)
    ensures Effect(db, EnqueueTx(db, e, now).0, e, now)
  {
    var v := VerdictOf(db, e, now);
    if v.Recover? {
      RecoverEffect(db, e, now);
    } else if Inserts(v) {
      AlertEffect(db, e, now);
    }
  }

  /** So every transaction keeps the tables well formed, dedup keys unique and one delivery a recipient. */
  lemma EnqueueKeeps(db: Db, e: Event, now: Time)
    requires WellFormed(db) && UniqueKeys(db) && OncePerRecipient(db)
    ensures var db' := EnqueueTx(db, e, now).0; WellFormed(db') && UniqueKeys(db') && OncePerRecipient(db')
  {
    var db' := EnqueueTx(db, e, now).0;
    EnqueueEffect(db, e, now);
    EffectKeeps(db, db', e, now);
  }

  lemma EffectKeeps(db: Db, db': Db, e: Event, now: Time)
    requires WellFormed(db) && UniqueKeys(db) && OncePerRecipient(db) && Effect(db, db', e, now)
    ensures WellFormed(db') && UniqueKeys(db') && OncePerRecipient(db')
  {
    EffectKeepsEvents(db, db', e, now);
    EffectKeepsWellFormed(db, db', e, now);
    EffectKeepsDeliveries(db, db', e, now);
  }

  lemma EffectKeepsNames(db: Db, db': Db, e: Event, now: Time)
    requires Effect(db, db', e, now)
    ensures forall id :: id in db.events ==> db'.events[id].dedupKey == db.events[id].dedupKey
  {
    forall id | id in db.events ensures db'.events[id].dedupKey == db.events[id].dedupKey {
      assert EventStays(db.events[id], db'.events[id], e, now);
    }
  }

  lemma EffectKeepsEvents(db: Db, db': Db, e: Event, now: Time)
    requires WellFormed(db) && UniqueKeys(db) && Effect(db, db', e, now)
    ensures UniqueKeys(db')
  {
    EffectKeepsNames(db, db', e, now);
  }

  lemma EffectKeepsPairs(db: Db, db': Db, e: Event, now: Time)
    requires Effect(db, db', e, now)
    ensures forall id :: id in db.deliveries ==> SamePair(db'.deliveries[id], db.deliveries[id])
  {
    forall id | id in db.deliveries ensures SamePair(db'.deliveries[id], db.deliveries[id]) {
      assert DeliveryStays(db.deliveries[id], db'.deliveries[id], db'.events, e.key, now);
    }
  }

  lemma EffectKeepsWellFormed(db: Db, db': Db, e: Event, now: Time)
    requires WellFormed(db) && Effect(db, db', e, now)
    ensures WellFormed(db')
  {
    EffectKeepsPairs(db, db', e, now);
  }

  lemma EffectKeepsDeliveries(db: Db, db': Db, e: Event, now: Time)
    requires WellFormed(db) && OncePerRecipient(db) && Effect(db, db', e, now)
    ensures OncePerRecipient(db')
  {
    EffectKeepsPairs(db, db', e, now);
    forall a, b | a in db'.deliveries && b in db'.deliveries && SamePair(db'.deliveries[a], db'.deliveries[b])
      ensures a == b
    {
      SamePairSameRow(db, db', e, now, a, b);
    }
  }

  lemma SamePairSameRow(db: Db, db': Db, e: Event, now: Time, a: nat, b: nat)
    requires WellFormed(db) && OncePerRecipient(db) && Effect(db, db', e, now)
    requires forall id :: id in db.deliveries ==> SamePair(db'.deliveries[id], db.deliveries[id])
    requires a in db'.deliveries && b in db'.deliveries && SamePair(db'.deliveries[a], db'.deliveries[b])
    ensures a == b
  {
    if a in db.deliveries && b in db.deliveries {
      assert SamePair(db'.deliveries[a], db.deliveries[a]) && SamePair(db'.deliveries[b], db.deliveries[b]);
      assert SamePair(db.deliveries[a], db.deliveries[b]);
    } else if a !in db.deliveries && b !in db.deliveries {
      NewRowsDiffer(db, db', e, now, a, b);
    } else if a in db.deliveries {
      NewRowIsApart(db, db', e, now, a, b);
    } else {
      NewRowIsApart(db, db', e, now, b, a);
    }
  }

  lemma NewRowIsApart(db: Db, db': Db, e: Event, now: Time, a: nat, b: nat)
    requires WellFormed(db) && Effect(db, db', e, now)
    requires a in db.deliveries && a in db'.deliveries && b in db'.deliveries && b !in db.deliveries
    ensures !SamePair(db'.deliveries[a], db'.deliveries[b])
  {
    EffectKeepsPairs(db, db', e, now);
    NewDeliveryAt(db, db', e, now, b);
  }

  /** A new row is one of the inserted event's, for one of the chosen recipients. */
  lemma NewDeliveryAt(db: Db, db': Db, e: Event, now: Time, d: nat)
    requires Effect(db, db', e, now) && d in db'.deliveries && d !in db.deliveries
    ensures var to := Chosen(db, e.audience, e.key);
            && db.nextDelivery <= d < db.nextDelivery + |to|
            && db'.deliveries[d] == NewDelivery(db.nextEvent, to[d - db.nextDelivery], now)
  {
  }

  lemma SamePlace(to: seq<nat>, rs: seq<Recipient>, i: nat, j: nat)
    requires DistinctAmong(to, rs) && i < |to| && j < |to| && to[i] == to[j]
    ensures i == j
  {
  }

  lemma NewRowsDiffer(db: Db, db': Db, e: Event, now: Time, a: nat, b: nat)
    requires WellFormed(db) && Effect(db, db', e, now) && a !in db.deliveries && b !in db.deliveries
    requires a in db'.deliveries && b in db'.deliveries && db'.deliveries[a].recipientId == db'.deliveries[b].recipientId
    ensures a == b
  {
    ChosenDistinct(db.recipients, db.links, e.key, e.audience, HasSelection(db.links, e.key));
    NewDeliveryAt(db, db', e, now, a);
    NewDeliveryAt(db, db', e, now, b);
    SamePlace(Chosen(db, e.audience, e.key), db.recipients, a - db.nextDelivery, b - db.nextDelivery);
  }

  ghost predicate DistinctAmong(to: seq<nat>, rs: seq<Recipient>) {
    && (forall i, j :: 0 <= i < j < |to| ==> to[i] != to[j])
    && (forall i :: 0 <= i < |to| ==> HasRecipient(rs, to[i]))
  }

  lemma {:induction false} ChosenDistinct(rs: seq<Recipient>, links: set<(string, nat)>, key: string, audience: string, selected: bool)
    requires DistinctIds(rs)
    ensures DistinctAmong(Filter(rs, links, key, audience, selected), rs)
  {
    if rs != [] {
      ChosenDistinct(rs[1..], links, key, audience, selected);
      var rest := Filter(rs[1..], links, key, audience, selected);
      assert DistinctAmong(rest, rs[1..]);
      assert HasRecipient(rs, rs[0].id);
      forall i | 0 <= i < |rest| ensures rest[i] != rs[0].id && HasRecipient(rs, rest[i]) {
        assert HasRecipient(rs[1..], rest[i]);
        var k :| 0 <= k < |rs[1..]| && rs[1..][k].id == rest[i];
        assert rs[k + 1].id == rest[i];
      }
    }
  }

  /** A recipient's row with the given id that an event of this audience is for. */
  ghost predicate Receives(rs: seq<Recipient>, links: set<(string, nat)>, key: string, audience: string, selected: bool, id: nat) {
    exists k :: 0 <= k < |rs| && rs[k].id == id && Wanted(rs[k], links, key, audience, selected)
  }

  lemma {:induction false} FilterIs(rs: seq<Recipient>, links: set<(string, nat)>, key: string, audience: string, selected: bool, id: nat)
    ensures id in Filter(rs, links, key, audience, selected) <==> Receives(rs, links, key, audience, selected, id)
  {
    if rs != [] {
      FilterIs(rs[1..], links, key, audience, selected, id);
      if Receives(rs[1..], links, key, audience, selected, id) {
        var k :| 0 <= k < |rs[1..]| && rs[1..][k].id == id && Wanted(rs[1..][k], links, key, audience, selected);
        assert rs[k + 1].id == id;
      }
      if Receives(rs, links, key, audience, selected, id) && !(rs[0].id == id && Wanted(rs[0], links, key, audience, selected)) {
        var k :| 0 <= k < |rs| && rs[k].id == id && Wanted(rs[k], links, key, audience, selected);
        assert rs[1..][k - 1] == rs[k];
      }
    }
  }

  /** Recipients selected for a rule override the audience: then they alone are chosen, of any audience; otherwise those
      who want that audience; and only enabled ones either way. */
  lemma SelectionOverridesAudience(db: Db, audience: string, key: string, k: nat)
    requires DistinctIds(db.recipients) && k < |db.recipients|
    ensures var r := db.recipients[k];
            r.id in Chosen(db, audience, key) <==>
              && r.enabled
              && (((exists other :: (key, other) in db.links) && (key, r.id) in db.links)
                  || ((forall other :: (key, other) !in db.links)
                      && (if audience == "audit" then r.audit else if audience == "updates" then r.updates else r.alerts)))
  {
    var r := db.recipients[k];
    var selected := HasSelection(db.links, key);
    FilterIs(db.recipients, db.links, key, audience, selected, r.id);
    if selected {
      var link :| link in db.links && link.0 == key;
      assert (key, link.1) in db.links;
    }
  }
}
