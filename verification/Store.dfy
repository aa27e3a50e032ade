/** The notification tables and the SQL statements that touch them, one function a statement.
    Times are UnixNano readings of the service's clock. */
module Store {
  import opened Common
  import Like

  type Time = int

  const SECOND: int := 1_000_000_000

  /** One alert state row: subject "" is the per-rule table, any other the per-object table. */
  datatype Scope = Scope(key: string, subject: string)

  datatype Event = Event(
    key: string, severity: string, dedupKey: string, audience: string,
    recovery: bool, subject: string, instant: bool)

  datatype Rule = Rule(enabled: bool, severity: string, cooldown: int, repeatEvery: int, sendRecovery: bool)

  datatype State = State(
    active: bool, activeDedupKey: Option<string>, lastEventId: Option<nat>,
    lastTriggeredAt: Option<Time>, lastNotifiedAt: Option<Time>, resolvedAt: Option<Time>)

  datatype EventStatus = Queued | Resolved | Skipped | Sent | Undelivered

  datatype EventRow = EventRow(
    key: string, severity: string, dedupKey: string, status: EventStatus, createdAt: Time, resolvedAt: Option<Time>)

  datatype DeliveryStatus = Pending | Sending | Delivered | Failed | Cancelled

  datatype Delivery = Delivery(
    eventId: nat, recipientId: nat, status: DeliveryStatus, attempts: nat,
    nextAttemptAt: Option<Time>, deliveredAt: Option<Time>)

  datatype Recipient = Recipient(id: nat, enabled: bool, alerts: bool, audit: bool, updates: bool)

  datatype Db = Db(
    rules: map<string, Rule>, states: map<Scope, State>,
    events: map<nat, EventRow>, deliveries: map<nat, Delivery>,
    recipients: seq<Recipient>, links: set<(string, nat)>, retryCount: int,
    nextEvent: nat, nextDelivery: nat)

  const BLANK_STATE := State(false, None, None, None, None, None)

  function DefaultRule(severity: string): Rule {
    Rule(true, severity, 600, 1800, true)
  }

  // ---- rules, states ----------------------------------------------------------------

  function RuleOf(db: Db, e: Event): Rule {
    if e.key in db.rules then db.rules[e.key] else DefaultRule(e.severity)
  }

  function ScopeOf(e: Event): Scope {
    Scope(e.key, e.subject)
  }

  function StateOf(db: Db, scope: Scope): State {
    if scope in db.states then db.states[scope] else BLANK_STATE
  }

  // ---- events -----------------------------------------------------------------------

  /** The row the unique index on dedup_key finds. */
  function FindDedup(events: map<nat, EventRow>, dedupKey: string, below: nat): (id: Option<nat>)
    ensures id.Some? ==> id.value in events && id.value < below && events[id.value].dedupKey == dedupKey
    ensures id.None? ==> forall i :: i in events && i < below ==> events[i].dedupKey != dedupKey
  {
    if below == 0 then None
    else if below - 1 in events && events[below - 1].dedupKey == dedupKey then Some(below - 1)
    else FindDedup(events, dedupKey, below - 1)
  }

  /** The rows a recovery resolves: unresolved, of the same key, and for a subject only those
      whose dedup key is LIKE the event's own followed by anything. */
  predicate Recovers(row: EventRow, e: Event) {
    row.key == e.key && row.resolvedAt.None? && (e.subject != "" ==> Like.Matches(e.dedupKey + "%", row.dedupKey))
  }

  function ResolveEvents(events: map<nat, EventRow>, e: Event, now: Time): map<nat, EventRow> {
    map id | id in events ::
      if Recovers(events[id], e) then events[id].(status := Resolved, resolvedAt := Some(now)) else events[id]
  }

  /** The subselect of the cancelling UPDATE: by key and resolution time only. */
  predicate ResolvedAtNow(events: map<nat, EventRow>, id: nat, key: string, now: Time) {
    id in events && events[id].key == key && events[id].resolvedAt == Some(now)
  }

  function CancelPending(deliveries: map<nat, Delivery>, events: map<nat, EventRow>, key: string, now: Time)
    : map<nat, Delivery>
  {
    map id | id in deliveries ::
      if deliveries[id].status == Pending && ResolvedAtNow(events, deliveries[id].eventId, key, now)
      then deliveries[id].(status := Cancelled) else deliveries[id]
  }

  // ---- deliveries -------------------------------------------------------------------

  predicate HasRecipient(rs: seq<Recipient>, id: nat) {
    exists i :: 0 <= i < |rs| && rs[i].id == id
  }

  predicate DistinctIds(rs: seq<Recipient>) {
    forall i, j :: 0 <= i < j < |rs| ==> rs[i].id != rs[j].id
  }

  predicate Wanted(r: Recipient, links: set<(string, nat)>, key: string, audience: string, selected: bool) {
    r.enabled &&
    if selected then (key, r.id) in links
    else if audience == "audit" then r.audit
    else if audience == "updates" then r.updates
    else r.alerts
  }

  predicate HasSelection(links: set<(string, nat)>, key: string) {
    exists link :: link in links && link.0 == key
  }

  function Filter(rs: seq<Recipient>, links: set<(string, nat)>, key: string, audience: string, selected: bool): seq<nat> {
    if rs == [] then []
    else (if Wanted(rs[0], links, key, audience, selected) then [rs[0].id] else [])
         + Filter(rs[1..], links, key, audience, selected)
  }

  /** Who an event goes to: the rule's selected recipients when it has any, else the audience's. */
  function Chosen(db: Db, audience: string, key: string): seq<nat> {
    Filter(db.recipients, db.links, key, audience, HasSelection(db.links, key))
  }

  function NewDelivery(eventId: nat, recipientId: nat, now: Time): Delivery {
    Delivery(eventId, recipientId, Pending, 0, Some(now), None)
  }

  /** One batch INSERT: consecutive ids, in the order of the recipients. */
  function InsertDeliveries(deliveries: map<nat, Delivery>, next: nat, eventId: nat, to: seq<nat>, now: Time)
    : (r: map<nat, Delivery>)
    ensures forall i :: i in r <==> i in deliveries || next <= i < next + |to|
    ensures forall i :: i in deliveries && i < next ==> r[i] == deliveries[i]
    ensures forall i :: next <= i < next + |to| ==> r[i] == NewDelivery(eventId, to[i - next], now)
  {
    if to == [] then deliveries
    else
      var n := |to| - 1;
      InsertDeliveries(deliveries, next, eventId, to[..n], now)[next + n := NewDelivery(eventId, to[n], now)]
  }

  predicate Due(d: Delivery, now: Time) {
    d.status == Pending && (d.nextAttemptAt.None? || d.nextAttemptAt.value <= now)
  }

  /** The first due row in id order. */
  function FirstDue(deliveries: map<nat, Delivery>, from: nat, below: nat, now: Time): (id: Option<nat>)
    requires from <= below
    ensures id.Some? ==> id.value in deliveries && from <= id.value < below && Due(deliveries[id.value], now)
    ensures forall i :: i in deliveries && from <= i < (if id.Some? then id.value else below) ==> !Due(deliveries[i], now)
    decreases below - from
  {
    if from == below then None
    else if from in deliveries && Due(deliveries[from], now) then Some(from)
    else FirstDue(deliveries, from + 1, below, now)
  }

  function Pow2(n: nat): nat {
    if n == 0 then 1 else 2 * Pow2(n - 1)
  }

  /** min(2^attempts, 3600) seconds. */
  function Backoff(attempts: nat): int {
    Min(Pow2(attempts), 3600) * SECOND
  }

  /** The two UPDATEs that record a send; `attempts` comes from the row as it was read. */
  function AfterFailure(d: Delivery, attempts: nat, retryCount: int, now: Time): Delivery {
    d.(status := if attempts > retryCount then Failed else Pending,
       attempts := attempts, nextAttemptAt := Some(now + Backoff(attempts)))
  }

  function AfterSuccess(d: Delivery, attempts: nat, now: Time): Delivery {
    d.(status := Delivered, attempts := attempts, deliveredAt := Some(now))
  }

  function RequeueSending(deliveries: map<nat, Delivery>, now: Time): map<nat, Delivery> {
    map id | id in deliveries ::
      if deliveries[id].status == Sending then deliveries[id].(status := Pending, nextAttemptAt := Some(now))
      else deliveries[id]
  }

  // ---- status counts ----------------------------------------------------------------

  function OpenOf(deliveries: map<nat, Delivery>, eventId: nat): set<nat> {
    set id | id in deliveries && deliveries[id].eventId == eventId && deliveries[id].status in {Pending, Sending}
  }

  function FailedOf(deliveries: map<nat, Delivery>, eventId: nat): set<nat> {
    set id | id in deliveries && deliveries[id].eventId == eventId && deliveries[id].status == Failed
  }

  function StatusOfCounts(pending: nat, failed: nat): EventStatus {
    if pending > 0 then Queued else if failed > 0 then Undelivered else Sent
  }

  function WriteStatus(events: map<nat, EventRow>, eventId: nat, status: EventStatus): map<nat, EventRow> {
    if eventId in events && events[eventId].status != Resolved
    then events[eventId := events[eventId].(status := status)] else events
  }
}
