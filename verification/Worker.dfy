/** The running system: Enqueue transactions and administrators' edits interleaved with the single
    delivery worker, whose ProcessOnce is cut into its separate statements. */
module Worker {
  import opened Common
  import opened Store
  import opened Alerts

  // ---- the statements of ProcessOnce, one function each ---------------------------------

  function ClaimRow(db: Db, id: nat): Db
    requires id in db.deliveries
  {
    db.(deliveries := db.deliveries[id := db.deliveries[id].(status := Sending)])
  }

  function RecordRow(db: Db, id: nat, row: Delivery, retryCount: int, ok: bool, now: Time): Db
    requires id in db.deliveries
  {
    var d := db.deliveries[id];
    var attempts := row.attempts + 1;
    db.(deliveries := db.deliveries[id :=
      if ok then AfterSuccess(d, attempts, now) else AfterFailure(d, attempts, retryCount, now)])
  }

  function Requeue(db: Db, now: Time): Db {
    db.(deliveries := RequeueSending(db.deliveries, now))
  }

  function SetStatus(db: Db, eventId: nat, status: EventStatus): Db {
    db.(events := WriteStatus(db.events, eventId, status))
  }

  function OpenCount(db: Db, eventId: nat): nat {
    |OpenOf(db.deliveries, eventId)|
  }

  function FailedCount(db: Db, eventId: nat): nat {
    |FailedOf(db.deliveries, eventId)|
  }

  // ---- the machine ----------------------------------------------------------------------

  /** The worker's program counter with the local variables of ProcessOnce. */
  datatype Phase =
    | Down
    | Idle
    | ToClaim(now: Time, id: nat, row: Delivery)
    | ToLoad(now: Time, id: nat, row: Delivery, found: nat)
    | ToSend(now: Time, id: nat, row: Delivery, retry: int)
    | ToRecord(now: Time, id: nat, row: Delivery, retry: int, ok: bool)
    | ToCountOpen(now: Time, eventId: nat)
    | ToCountFailed(now: Time, eventId: nat, open: nat)
    | ToWrite(now: Time, eventId: nat, open: nat, failed: nat)

  /** One call of Send: the delivery, the clock its ProcessOnce had read, and whether it succeeded. */
  datatype Attempt = Attempt(delivery: nat, at: Time, ok: bool)

  /** One accepted Enqueue of a stateful event. */
  datatype Acceptance = Acceptance(scope: Scope, kind: Verdict, at: Time)

  /** The tables, the worker, and the history the properties speak about: sends, acceptances, restarts,
      events whose ProcessOnce was cut short before it wrote their status, which scope inserted which event,
      and the last Enqueue time. */
  datatype Sys = Sys(
    db: Db, phase: Phase,
    sends: seq<Attempt>, accepted: seq<Acceptance>, restarts: nat, cut: set<nat>, origin: map<nat, Scope>, clock: Time)

  datatype Action =
    | Enqueue(event: Event, now: Time)
    | SetRule(key: string, rule: Rule, chosen: set<nat>)
    | SetRecipients(recipients: seq<Recipient>)
    | SetRetry(count: int)
    | Read(now: Time)
    | Claim
    | Load
    | Send(ok: bool)
    | Record
    | CountOpen
    | CountFailed
    | Write
    | Abort
    | Crash
    | Start(now: Time, recovered: bool)

  function Start0(db: Db, clock: Time): Sys {
    Sys(db, Idle, [], [], 0, {}, map[], clock)
  }

  predicate Accepts(v: Verdict) {
    v.Trigger? || v.Repeat? || v.Recover?
  }

  function EnqueueStep(s: Sys, e: Event, now: Time): Sys {
    if !ValidEvent(e) then s.(clock := now)
    else
      var v := VerdictOf(s.db, e, now);
      var db := EnqueueTx(s.db, e, now).0;
      s.(db := db, clock := now,
         accepted := if Accepts(v) then s.accepted + [Acceptance(ScopeOf(e), v, now)] else s.accepted,
         origin := if db.nextEvent != s.db.nextEvent && !e.instant then s.origin[s.db.nextEvent := ScopeOf(e)] else s.origin)
  }

  function LinksAfter(links: set<(string, nat)>, key: string, chosen: set<nat>): set<(string, nat)> {
    (set link | link in links && link.0 != key) + (set id | id in chosen :: (key, id))
  }

  predicate KnownRecipient(db: Db, id: nat) {
    HasRecipient(db.recipients, id)
  }

  /** Whether the recipients can become these: ids stay distinct, and the foreign key of the deliveries forbids removing
      a recipient that has any. */
  predicate MayBecome(db: Db, rs: seq<Recipient>) {
    && DistinctIds(rs)
    && (forall d :: d in db.deliveries ==> HasRecipient(rs, db.deliveries[d].recipientId))
  }

  /** Removing a recipient removes its selections with it. */
  function LinksOf(links: set<(string, nat)>, rs: seq<Recipient>): set<(string, nat)> {
    set link | link in links && HasRecipient(rs, link.1)
  }

  /** Administrators' edits; one that breaks a rule of the tables is refused. */
  function AdminDb(db: Db, a: Action): Db {
    match a
    case SetRule(key, rule, chosen) =>
      if key in db.rules && (forall id :: id in chosen ==> KnownRecipient(db, id))
      then db.(rules := db.rules[key := rule], links := LinksAfter(db.links, key, chosen)) else db
    case SetRecipients(rs) =>
      if MayBecome(db, rs) then db.(recipients := rs, links := LinksOf(db.links, rs)) else db
    case SetRetry(n) => db.(retryCount := n)
    case _ => db
  }

  function AdminStep(s: Sys, a: Action): Sys {
    s.(db := AdminDb(s.db, a))
  }

  /** The event whose status the worker still owes a write, if any. */
  function Owed(p: Phase): set<nat> {
    match p
    case ToCountOpen(_, e) => {e}
    case ToCountFailed(_, e, _) => {e}
    case ToWrite(_, e, _, _) => {e}
    case _ => {}
  }

  // One statement of the worker each. A statement that is not the next one leaves everything as it is.

  function ReadStep(s: Sys, now: Time): Sys {
    if !s.phase.Idle? then s
    else
      var due := FirstDue(s.db.deliveries, 0, s.db.nextDelivery, now);
      if due.None? then s else s.(phase := ToClaim(now, due.value, s.db.deliveries[due.value]))
  }

  function ClaimStep(s: Sys): Sys {
    match s.phase
    case ToClaim(now, id, row) =>
      if id in s.db.deliveries && s.db.deliveries[id].status == Pending
      then s.(db := ClaimRow(s.db, id), phase := ToLoad(now, id, row, 0))
      else s.(phase := Idle)
    case _ => s
  }

  /** The three lookups after a claim, one at a time: the event, the recipient, the settings row. */
  function LoadStep(s: Sys): Sys {
    match s.phase
    case ToLoad(now, id, row, found) =>
      if found == 0 && row.eventId !in s.db.events then s.(phase := Idle)
      else if found == 1 && !KnownRecipient(s.db, row.recipientId) then s.(phase := Idle)
      else if found < 2 then s.(phase := ToLoad(now, id, row, found + 1))
      else s.(phase := ToSend(now, id, row, s.db.retryCount))
    case _ => s
  }

  function SendStep(s: Sys, ok: bool): Sys {
    match s.phase
    case ToSend(now, id, row, retry) =>
      s.(phase := ToRecord(now, id, row, retry, ok), sends := s.sends + [Attempt(id, now, ok)])
    case _ => s
  }

  function RecordStep(s: Sys): Sys {
    match s.phase
    case ToRecord(now, id, row, retry, ok) =>
      s.(db := if id in s.db.deliveries then RecordRow(s.db, id, row, retry, ok, now) else s.db,
         phase := ToCountOpen(now, row.eventId))
    case _ => s
  }

  function CountStep(s: Sys, failed: bool): Sys {
    match s.phase
    case ToCountOpen(now, e) => if failed then s else s.(phase := ToCountFailed(now, e, OpenCount(s.db, e)))
    case ToCountFailed(now, e, open) => if failed then s.(phase := ToWrite(now, e, open, FailedCount(s.db, e))) else s
    case _ => s
  }

  function WriteStep(s: Sys): Sys {
    match s.phase
    case ToWrite(now, e, open, failed) =>
      s.(db := SetStatus(s.db, e, StatusOfCounts(open, failed)), phase := Idle, cut := s.cut - {e})
    case _ => s
  }

  function AbortStep(s: Sys, to: Phase): Sys {
    s.(phase := to, cut := s.cut + Owed(s.phase))
  }

  function StartStep(s: Sys, now: Time, recovered: bool): Sys {
    if s.phase.Down?
    then s.(db := if recovered then Requeue(s.db, now) else s.db, phase := Idle, restarts := s.restarts + 1)
    else s
  }

  function Step(s: Sys, a: Action): Sys {
    match a
    case Enqueue(e, now) => EnqueueStep(s, e, now)
    case SetRule(_, _, _) => AdminStep(s, a)
    case SetRecipients(_) => AdminStep(s, a)
    case SetRetry(_) => AdminStep(s, a)
    case Read(now) => ReadStep(s, now)
    case Claim => ClaimStep(s)
    case Load => LoadStep(s)
    case Send(ok) => SendStep(s, ok)
    case Record => RecordStep(s)
    case CountOpen => CountStep(s, false)
    case CountFailed => CountStep(s, true)
    case Write => WriteStep(s)
    case Abort => if s.phase.Down? then s else AbortStep(s, Idle)
    case Crash => AbortStep(s, Down)
    case Start(now, recovered) => StartStep(s, now, recovered)
  }

  function Run(s: Sys, actions: seq<Action>): Sys {
    if actions == [] then s else Step(Run(s, actions[..|actions| - 1]), actions[|actions| - 1])
  }

  // ---- what every reachable state satisfies ----------------------------------------------

  ghost predicate LinksKnown(db: Db) {
    forall link :: link in db.links ==> KnownRecipient(db, link.1)
  }

  /** No event and no delivery yet, and of the alert states at most the blank rows the migrations insert; the foreign
      keys hold. */
  ghost predicate Empty(db: Db) {
    && db.events == map[] && db.deliveries == map[] && db.nextEvent >= 1
    && (forall scope :: scope in db.states ==> db.states[scope] == BLANK_STATE)
    && DistinctIds(db.recipients) && LinksKnown(db)
  }

  /** The worker's copy of a row agrees with the table for as long as it is used. */
  ghost predicate PhaseAgrees(ds: map<nat, Delivery>, p: Phase) {
    match p
    case ToClaim(now, id, row) => id in ds && Due(row, now) && (ds[id] == row || ds[id] == row.(status := Cancelled))
    case ToLoad(now, id, row, _) => id in ds && Due(row, now) && ds[id] == row.(status := Sending)
    case ToSend(now, id, row, _) => id in ds && Due(row, now) && ds[id] == row.(status := Sending)
    case ToRecord(now, id, row, _, _) => id in ds && Due(row, now) && ds[id] == row.(status := Sending)
    case _ => true
  }

  ghost predicate Good(s: Sys) {
    && Sound(s.db)
    && PhaseAgrees(s.db.deliveries, s.phase)
    && (forall i :: 0 <= i < |s.sends| ==> s.sends[i].delivery < s.db.nextDelivery)
  }

  /** The same event rows, by key and dedup key. */
  ghost predicate SameNames(a: map<nat, EventRow>, b: map<nat, EventRow>) {
    a.Keys == b.Keys && forall id :: id in a ==> b[id].key == a[id].key && b[id].dedupKey == a[id].dedupKey
  }

  lemma OnlyWriteTouchesEvents(s: Sys, a: Action)
    requires !a.Enqueue?
    ensures Step(s, a).origin == s.origin && (!a.Write? ==> Step(s, a).db.events == s.db.events)
  {
  }

  lemma WriteKeepsNames(s: Sys)
    ensures SameNames(s.db.events, WriteStep(s).db.events)
  {
  }

  lemma OtherStepsKeepNames(s: Sys, a: Action)
    requires !a.Enqueue?
    ensures SameNames(s.db.events, Step(s, a).db.events) && Step(s, a).origin == s.origin
  {
    OnlyWriteTouchesEvents(s, a);
    if a.Write? {
      WriteKeepsNames(s);
    }
  }

  lemma StartIsGood(db: Db, clock: Time)
    requires Empty(db)
    ensures Good(Start0(db, clock))
  {
  }

  lemma EnqueueStepIsGood(s: Sys, e: Event, now: Time)
    requires Good(s)
    ensures Good(EnqueueStep(s, e, now))
  {
    if ValidEvent(e) {
      EnqueueKeeps(s.db, e, now);
      EnqueueEffect(s.db, e, now);
      var db' := EnqueueTx(s.db, e, now).0;
      PhaseSurvives(s.db, db', e, now, s.phase);
    }
  }

  lemma PhaseSurvives(db: Db, db': Db, e: Event, now: Time, p: Phase)
    requires Effect(db, db', e, now) && PhaseAgrees(db.deliveries, p)
    ensures PhaseAgrees(db'.deliveries, p)
  {
    match p
    case ToClaim(_, id, _) => assert DeliveryStays(db.deliveries[id], db'.deliveries[id], db'.events, e.key, now);
    case ToLoad(_, id, _, _) => assert DeliveryStays(db.deliveries[id], db'.deliveries[id], db'.events, e.key, now);
    case ToSend(_, id, _, _) => assert DeliveryStays(db.deliveries[id], db'.deliveries[id], db'.events, e.key, now);
    case ToRecord(_, id, _, _, _) => assert DeliveryStays(db.deliveries[id], db'.deliveries[id], db'.events, e.key, now);
    case _ =>
  }

  ghost predicate Sound(db: Db) {
    WellFormed(db) && UniqueKeys(db) && OncePerRecipient(db)
  }

  lemma RowUpdateSound(db: Db, id: nat, d: Delivery)
    requires Sound(db) && id in db.deliveries && SamePair(d, db.deliveries[id])
    ensures Sound(db.(deliveries := db.deliveries[id := d]))
  {
  }

  lemma RequeueSound(db: Db, now: Time)
    requires Sound(db)
    ensures Sound(Requeue(db, now))
  {
    var db' := Requeue(db, now);
    forall id | id in db'.deliveries ensures SamePair(db'.deliveries[id], db.deliveries[id]) {}
  }

  lemma SetStatusSound(db: Db, eventId: nat, status: EventStatus)
    requires Sound(db)
    ensures Sound(SetStatus(db, eventId, status))
  {
    var db' := SetStatus(db, eventId, status);
    forall id | id in db'.events ensures db'.events[id].dedupKey == db.events[id].dedupKey {}
  }

  lemma ClaimIsGood(s: Sys)
    requires Good(s)
    ensures Good(ClaimStep(s))
  {
    if s.phase.ToClaim? && s.db.deliveries[s.phase.id].status == Pending {
      RowUpdateSound(s.db, s.phase.id, s.db.deliveries[s.phase.id].(status := Sending));
    }
  }

  lemma RecordIsGood(s: Sys)
    requires Good(s)
    ensures Good(RecordStep(s))
  {
    if s.phase.ToRecord? {
      var p := s.phase;
      RowUpdateSound(s.db, p.id, RecordRow(s.db, p.id, p.row, p.retry, p.ok, p.now).deliveries[p.id]);
    }
  }

  /** Steps that touch no table. */
  lemma HoldingIsGood(s: Sys, now: Time, ok: bool)
    requires Good(s)
    ensures Good(ReadStep(s, now)) && Good(LoadStep(s)) && Good(SendStep(s, ok))
  {
  }

  lemma WriteIsGood(s: Sys)
    requires Good(s)
    ensures Good(WriteStep(s))
  {
    if s.phase.ToWrite? {
      SetStatusSound(s.db, s.phase.eventId, StatusOfCounts(s.phase.open, s.phase.failed));
    }
  }

  lemma AdminIsGood(s: Sys, a: Action)
    requires Good(s)
    ensures Good(AdminStep(s, a))
  {
    if a.SetRecipients? {
      var s' := AdminStep(s, a);
      assert s'.db.events == s.db.events && s'.db.deliveries == s.db.deliveries && s'.phase == s.phase;
    }
  }

  lemma StartAgainIsGood(s: Sys, now: Time, recovered: bool)
    requires Good(s)
    ensures Good(StartStep(s, now, recovered))
  {
    RequeueSound(s.db, now);
  }

  lemma StepIsGood(s: Sys, a: Action)
    requires Good(s)
    ensures Good(Step(s, a))
  {
    match a
    case Enqueue(e, now) => EnqueueStepIsGood(s, e, now);
    case SetRule(_, _, _) => AdminIsGood(s, a);
    case SetRecipients(_) => AdminIsGood(s, a);
    case SetRetry(_) => AdminIsGood(s, a);
    case Start(now, recovered) => StartAgainIsGood(s, now, recovered);
    case Read(now) => HoldingIsGood(s, now, true);
    case Claim => ClaimIsGood(s);
    case Load => HoldingIsGood(s, 0, true);
    case Send(ok) => HoldingIsGood(s, 0, ok);
    case Record => RecordIsGood(s);
    case Write => WriteIsGood(s);
    case _ =>
  }

  lemma {:induction false} RunIsGood(s: Sys, actions: seq<Action>)
    requires Good(s)
    ensures Good(Run(s, actions))
  {
    if actions != [] {
      RunIsGood(s, actions[..|actions| - 1]);
      StepIsGood(Run(s, actions[..|actions| - 1]), actions[|actions| - 1]);
    }
  }

  // ---- administrators' edits ------------------------------------------------------------

  /** The selections after an edit: those of one rule replaced, all others as they were. */
  ghost predicate Reselected(links: set<(string, nat)>, after: set<(string, nat)>, key: string, chosen: set<nat>) {
    forall k: string, id: nat :: (k, id) in after <==> if k == key then id in chosen else (k, id) in links
  }

  /** Those whose recipient is still there. */
  ghost predicate Remaining(links: set<(string, nat)>, after: set<(string, nat)>, rs: seq<Recipient>) {
    forall k: string, id: nat :: (k, id) in after <==> (k, id) in links && exists i :: 0 <= i < |rs| && rs[i].id == id
  }

  /** A rule edit is accepted exactly if the rule is known and so is every recipient chosen; it replaces the rule and its
      selection and nothing else. Recipients can become any with distinct ids that keeps those who have deliveries; it takes
      the selections of the others away and nothing else. The retry count can become anything. */
  lemma EditIsExact(s: Sys, key: string, rule: Rule, chosen: set<nat>, rs: seq<Recipient>, n: int)
    ensures var s' := Step(s, SetRule(key, rule, chosen));
            if key in s.db.rules
               && (forall id :: id in chosen ==> exists i :: 0 <= i < |s.db.recipients| && s.db.recipients[i].id == id)
            then Reselected(s.db.links, s'.db.links, key, chosen)
                 && s' == s.(db := s.db.(rules := s.db.rules[key := rule], links := s'.db.links))
            else s' == s
    ensures var s' := Step(s, SetRecipients(rs));
            if (forall i, j :: 0 <= i < j < |rs| ==> rs[i].id != rs[j].id)
               && (forall d :: d in s.db.deliveries ==>
                     exists i :: 0 <= i < |rs| && rs[i].id == s.db.deliveries[d].recipientId)
            then Remaining(s.db.links, s'.db.links, rs)
                 && s' == s.(db := s.db.(recipients := rs, links := s'.db.links))
            else s' == s
    ensures Step(s, SetRetry(n)) == s.(db := s.db.(retryCount := n))
  {
    RuleEditIs(s, key, rule, chosen);
    RecipientEditIs(s, rs);
  }

  lemma RuleEditIs(s: Sys, key: string, rule: Rule, chosen: set<nat>)
    ensures var s' := Step(s, SetRule(key, rule, chosen));
            if key in s.db.rules && forall id :: id in chosen ==> KnownRecipient(s.db, id)
            then Reselected(s.db.links, s'.db.links, key, chosen)
                 && s' == s.(db := s.db.(rules := s.db.rules[key := rule], links := s'.db.links))
            else s' == s
  {
  }

  lemma RecipientEditIs(s: Sys, rs: seq<Recipient>)
    ensures var s' := Step(s, SetRecipients(rs));
            if MayBecome(s.db, rs)
            then Remaining(s.db.links, s'.db.links, rs) && s' == s.(db := s.db.(recipients := rs, links := s'.db.links))
            else s' == s
  {
  }
}
