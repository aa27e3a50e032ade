/** The status column of an event against the statuses of its deliveries, over every run. */
module EventStatuses {
  import opened Common
  import opened Store
  import opened Alerts
  import opened Worker

  /** The aggregate of an event's deliveries, by definition rather than by the two counts. */
  ghost function Aggregate(ds: map<nat, Delivery>, eventId: nat): EventStatus {
    if exists id :: id in ds && ds[id].eventId == eventId && (ds[id].status == Pending || ds[id].status == Sending) then Queued
    else if exists id :: id in ds && ds[id].eventId == eventId && ds[id].status == Failed then Undelivered
    else Sent
  }

  lemma CountsGiveAggregate(ds: map<nat, Delivery>, eventId: nat)
    ensures StatusOfCounts(|OpenOf(ds, eventId)|, |FailedOf(ds, eventId)|) == Aggregate(ds, eventId)
  {
    var open, failed := OpenOf(ds, eventId), FailedOf(ds, eventId);
    if id :| id in ds && ds[id].eventId == eventId && (ds[id].status == Pending || ds[id].status == Sending) {
      assert id in open;
    } else {
      assert open == {};
      if id :| id in ds && ds[id].eventId == eventId && ds[id].status == Failed {
        assert id in failed;
      } else {
        assert failed == {};
      }
    }
  }

  /** The worker's counts are still right for an event that is not resolved. */
  ghost predicate CountsAgree(db: Db, p: Phase) {
    match p
    case ToCountOpen(_, e) => e in db.events
    case ToCountFailed(_, e, open) => e in db.events && (db.events[e].status != Resolved ==> open == OpenCount(db, e))
    case ToWrite(_, e, open, failed) =>
      e in db.events && (db.events[e].status != Resolved ==> open == OpenCount(db, e) && failed == FailedCount(db, e))
    case _ => true
  }

  ghost predicate StatusAgrees(s: Sys, e: nat)
    requires e in s.db.events
  {
    var status := s.db.events[e].status;
    || status == Resolved || status == Skipped
    || status == Aggregate(s.db.deliveries, e)
    || (status == Queued && (e in Owed(s.phase) || e in s.cut))
  }

  ghost predicate ResolvedBy(db: Db, clock: Time) {
    forall e :: e in db.events && db.events[e].resolvedAt.Some? ==> db.events[e].resolvedAt.value <= clock
  }

  ghost predicate Agrees(s: Sys) {
    && ResolvedBy(s.db, s.clock)
    && CountsAgree(s.db, s.phase)
    && forall e :: e in s.db.events ==> StatusAgrees(s, e)
  }

  /** Every Enqueue happens at a strictly later clock reading than the one before. */
  ghost predicate Strict(s: Sys, actions: seq<Action>) {
    actions != [] ==>
      var init, a := actions[..|actions| - 1], actions[|actions| - 1];
      Strict(s, init) && (a.Enqueue? ==> Run(s, init).clock < a.now)
  }

  // ---- Enqueue ------------------------------------------------------------------------

  /** The deliveries of one event are the same rows. */
  ghost predicate SameDeliveries(ds: map<nat, Delivery>, ds': map<nat, Delivery>, e: nat) {
    && (forall id :: id in ds && ds[id].eventId == e ==> id in ds' && ds'[id] == ds[id])
    && (forall id :: id in ds' && ds'[id].eventId == e ==> id in ds)
  }

  lemma SameDeliveriesSameCounts(ds: map<nat, Delivery>, ds': map<nat, Delivery>, e: nat)
    requires SameDeliveries(ds, ds', e)
    requires forall id :: id in ds && id in ds' ==> ds[id].eventId == ds'[id].eventId
    ensures OpenOf(ds, e) == OpenOf(ds', e) && FailedOf(ds, e) == FailedOf(ds', e)
    ensures Aggregate(ds, e) == Aggregate(ds', e)
  {
    assert OpenOf(ds, e) == OpenOf(ds', e);
    assert FailedOf(ds, e) == FailedOf(ds', e);
    CountsGiveAggregate(ds, e);
    CountsGiveAggregate(ds', e);
  }

  /** With a clock that has moved on, only deliveries of events resolved right now are cancelled. */
  lemma EnqueueSameDeliveries(db: Db, db': Db, ev: Event, now: Time, clock: Time, e: nat)
    requires WellFormed(db) && Effect(db, db', ev, now) && ResolvedBy(db, clock) && clock < now
    requires e in db.events && db'.events[e].status != Resolved
    ensures db'.events[e] == db.events[e]
    ensures SameDeliveries(db.deliveries, db'.deliveries, e)
    ensures forall id :: id in db.deliveries && id in db'.deliveries ==> db.deliveries[id].eventId == db'.deliveries[id].eventId
  {
    assert EventStays(db.events[e], db'.events[e], ev, now);
    forall id | id in db.deliveries
      ensures db.deliveries[id].eventId == db'.deliveries[id].eventId
      ensures db.deliveries[id].eventId == e ==> db'.deliveries[id] == db.deliveries[id]
    {
      assert DeliveryStays(db.deliveries[id], db'.deliveries[id], db'.events, ev.key, now);
    }
  }

  lemma NewEventAgrees(db: Db, db': Db, ev: Event, now: Time)
    requires WellFormed(db) && Effect(db, db', ev, now) && db.nextEvent < db'.nextEvent
    ensures var e := db.nextEvent;
            && e in db'.events && (db'.events[e].resolvedAt.Some? ==> db'.events[e].resolvedAt.value == now)
            && (db'.events[e].status == Skipped || db'.events[e].status == Aggregate(db'.deliveries, e))
  {
    if db'.events[db.nextEvent].status != Skipped {
      assert db.nextDelivery in db'.deliveries;
    }
  }

  lemma OldEventAgrees(s: Sys, db': Db, s': Sys, ev: Event, now: Time, e: nat)
    requires WellFormed(s.db) && Agrees(s) && Effect(s.db, db', ev, now) && s.clock < now
    requires s'.db == db' && s'.phase == s.phase && s'.cut == s.cut && e in s.db.events
    ensures e in db'.events && StatusAgrees(s', e)
    ensures db'.events[e].resolvedAt.Some? ==> db'.events[e].resolvedAt.value <= now
  {
    assert EventStays(s.db.events[e], db'.events[e], ev, now);
    if db'.events[e].status != Resolved {
      EnqueueSameDeliveries(s.db, db', ev, now, s.clock, e);
      SameDeliveriesSameCounts(s.db.deliveries, db'.deliveries, e);
      assert StatusAgrees(s, e);
    }
  }

  lemma EventAgrees(s: Sys, s': Sys, ev: Event, now: Time, e: nat)
    requires WellFormed(s.db) && Agrees(s) && Effect(s.db, s'.db, ev, now) && s.clock < now
    requires s'.phase == s.phase && s'.cut == s.cut && e in s'.db.events
    ensures StatusAgrees(s', e) && (s'.db.events[e].resolvedAt.Some? ==> s'.db.events[e].resolvedAt.value <= now)
  {
    if e in s.db.events {
      OldEventAgrees(s, s'.db, s', ev, now, e);
    } else {
      NewEventAgrees(s.db, s'.db, ev, now);
    }
  }

  lemma EffectAgrees(s: Sys, s': Sys, ev: Event, now: Time)
    requires WellFormed(s.db) && Agrees(s) && Effect(s.db, s'.db, ev, now) && s.clock < now == s'.clock
    requires s'.phase == s.phase && s'.cut == s.cut
    ensures Agrees(s')
  {
    forall e | e in s'.db.events
      ensures StatusAgrees(s', e) && (s'.db.events[e].resolvedAt.Some? ==> s'.db.events[e].resolvedAt.value <= now)
    {
      EventAgrees(s, s', ev, now, e);
    }
    EnqueueCounts(s, s'.db, ev, now);
  }

  lemma EnqueueAgrees(s: Sys, ev: Event, now: Time)
    requires Good(s) && Agrees(s) && ValidEvent(ev) && s.clock < now
    ensures Agrees(EnqueueStep(s, ev, now))
  {
    EnqueueEffect(s.db, ev, now);
    EffectAgrees(s, EnqueueStep(s, ev, now), ev, now);
  }

  lemma EnqueueCounts(s: Sys, db': Db, ev: Event, now: Time)
    requires WellFormed(s.db) && Agrees(s) && Effect(s.db, db', ev, now) && s.clock < now
    ensures CountsAgree(db', s.phase)
  {
    if s.phase.ToCountOpen? || s.phase.ToCountFailed? || s.phase.ToWrite? {
      var e := s.phase.eventId;
      assert EventStays(s.db.events[e], db'.events[e], ev, now);
      if db'.events[e].status != Resolved {
        EnqueueSameDeliveries(s.db, db', ev, now, s.clock, e);
        SameDeliveriesSameCounts(s.db.deliveries, db'.deliveries, e);
      }
    }
  }

  // ---- the worker ---------------------------------------------------------------------

  /** Deliveries that keep their event and stay open, failed or neither. */
  ghost predicate SameClasses(ds: map<nat, Delivery>, ds': map<nat, Delivery>, except: set<nat>) {
    && ds.Keys == ds'.Keys
    && forall id :: id in ds ==>
         ds'[id].eventId == ds[id].eventId && (ds[id].eventId in except || SameClass(ds[id].status, ds'[id].status))
  }

  predicate SameClass(a: DeliveryStatus, b: DeliveryStatus) {
    && ((a == Pending || a == Sending) <==> (b == Pending || b == Sending))
    && (a == Failed <==> b == Failed)
  }

  lemma SameClassesSameCounts(ds: map<nat, Delivery>, ds': map<nat, Delivery>, except: set<nat>, e: nat)
    requires SameClasses(ds, ds', except) && e !in except
    ensures OpenOf(ds, e) == OpenOf(ds', e) && FailedOf(ds, e) == FailedOf(ds', e)
    ensures Aggregate(ds, e) == Aggregate(ds', e)
  {
    assert OpenOf(ds, e) == OpenOf(ds', e);
    assert FailedOf(ds, e) == FailedOf(ds', e);
    CountsGiveAggregate(ds, e);
    CountsGiveAggregate(ds', e);
  }

  /** A step that touches no event row and changes no delivery class outside an event the worker still owes. */
  lemma ClassesAgree(s: Sys, s': Sys, except: set<nat>)
    requires Agrees(s) && SameClasses(s.db.deliveries, s'.db.deliveries, except) && s'.db.events == s.db.events
    requires s'.clock == s.clock && s.cut + Owed(s.phase) <= s'.cut + Owed(s'.phase) && CountsAgree(s'.db, s'.phase)
    requires forall e :: e in except && e in s.db.events ==>
               e in Owed(s'.phase) && s.db.events[e].status in {Resolved, Skipped, Queued}
    ensures Agrees(s')
  {
    forall e | e in s'.db.events ensures StatusAgrees(s', e) {
      assert StatusAgrees(s, e);
      if e !in except {
        SameClassesSameCounts(s.db.deliveries, s'.db.deliveries, except, e);
      }
    }
  }

  lemma RecordClasses(s: Sys)
    requires Good(s) && s.phase.ToRecord?
    ensures var s', e := RecordStep(s), s.phase.row.eventId;
            && e in s.db.events && s'.db.events == s.db.events && s'.phase == ToCountOpen(s.phase.now, e)
            && SameClasses(s.db.deliveries, s'.db.deliveries, {e}) && Aggregate(s.db.deliveries, e) == Queued
  {
    assert s.db.deliveries[s.phase.id].eventId == s.phase.row.eventId;
  }

  lemma RecordAgrees(s: Sys)
    requires Good(s) && Agrees(s) && s.phase.ToRecord?
    ensures Agrees(RecordStep(s))
  {
    RecordClasses(s);
    assert StatusAgrees(s, s.phase.row.eventId);
    ClassesAgree(s, RecordStep(s), {s.phase.row.eventId});
  }

  lemma WrittenAgrees(s: Sys, s': Sys, e: nat)
    requires Agrees(s) && s.phase.ToWrite? && s' == WriteStep(s) && e in s.db.events
    ensures e in s'.db.events && StatusAgrees(s', e)
    ensures s'.db.events[e].resolvedAt == s.db.events[e].resolvedAt
  {
    CountsGiveAggregate(s.db.deliveries, s.phase.eventId);
    assert StatusAgrees(s, e);
  }

  lemma WriteAgrees(s: Sys)
    requires Good(s) && Agrees(s) && s.phase.ToWrite?
    ensures Agrees(WriteStep(s))
  {
    var s' := WriteStep(s);
    forall e | e in s'.db.events ensures StatusAgrees(s', e) && s'.db.events[e].resolvedAt == s.db.events[e].resolvedAt {
      WrittenAgrees(s, s', e);
    }
  }

  lemma StartAgrees(s: Sys, now: Time, recovered: bool)
    requires Agrees(s)
    ensures Agrees(StartStep(s, now, recovered))
  {
    ClassesAgree(s, StartStep(s, now, recovered), {});
  }

  /** The steps that change neither an event row nor a delivery class. */
  predicate Quiet(a: Action) {
    a.Read? || a.Claim? || a.Load? || a.Send? || a.CountOpen? || a.CountFailed?
  }

  /** A step that leaves the tables alone. */
  lemma PhaseAgreesOnly(s: Sys, s': Sys)
    requires Agrees(s) && s'.db == s.db && s'.clock == s.clock && s'.cut == s.cut
    requires Owed(s.phase) <= Owed(s'.phase) && CountsAgree(s.db, s'.phase)
    ensures Agrees(s')
  {
    forall e | e in s'.db.events ensures StatusAgrees(s', e) {
      assert StatusAgrees(s, e);
    }
  }

  lemma ReadAgrees(s: Sys, now: Time)
    requires Agrees(s)
    ensures Agrees(ReadStep(s, now))
  {
    PhaseAgreesOnly(s, ReadStep(s, now));
  }

  lemma SendAgrees(s: Sys, ok: bool)
    requires Agrees(s)
    ensures Agrees(LoadStep(s)) && Agrees(SendStep(s, ok))
  {
    PhaseAgreesOnly(s, LoadStep(s));
    PhaseAgreesOnly(s, SendStep(s, ok));
  }

  lemma CountAgrees(s: Sys, failed: bool)
    requires Agrees(s)
    ensures Agrees(CountStep(s, failed))
  {
    PhaseAgreesOnly(s, CountStep(s, failed));
  }

  lemma ClaimAgrees(s: Sys)
    requires PhaseAgrees(s.db.deliveries, s.phase) && Agrees(s)
    ensures Agrees(ClaimStep(s))
  {
    if s.phase.ToClaim? {
      ClassesAgree(s, ClaimStep(s), {});
    }
  }

  lemma QuietAgrees(s: Sys, a: Action)
    requires PhaseAgrees(s.db.deliveries, s.phase) && Agrees(s) && Quiet(a)
    ensures Agrees(Step(s, a))
  {
    match a
    case Read(now) => ReadAgrees(s, now);
    case Claim => ClaimAgrees(s);
    case Load => SendAgrees(s, true);
    case Send(ok) => SendAgrees(s, ok);
    case CountOpen => CountAgrees(s, false);
    case CountFailed => CountAgrees(s, true);
  }

  lemma EdgeAgrees(s: Sys, a: Action)
    requires Agrees(s) && (a.Abort? || a.Crash? || a.SetRule? || a.SetRecipients? || a.SetRetry?)
    ensures Agrees(Step(s, a))
  {
    ClassesAgree(s, Step(s, a), {});
  }

  lemma StepAgrees(s: Sys, a: Action)
    requires Good(s) && Agrees(s) && (a.Enqueue? ==> s.clock < a.now)
    ensures Agrees(Step(s, a))
  {
    if a.Enqueue? && ValidEvent(a.event) {
      EnqueueAgrees(s, a.event, a.now);
    } else if a.Enqueue? {
      forall x | x in s.db.events ensures StatusAgrees(Step(s, a), x) { assert StatusAgrees(s, x); }
    } else if a.Record? {
      if s.phase.ToRecord? { RecordAgrees(s); }
    } else if a.Write? {
      if s.phase.ToWrite? { WriteAgrees(s); }
    } else if a.Start? {
      StartAgrees(s, a.now, a.recovered);
    } else if Quiet(a) {
      QuietAgrees(s, a);
    } else {
      EdgeAgrees(s, a);
    }
  }

  lemma {:induction false} RunAgrees(s: Sys, actions: seq<Action>)
    requires Good(s) && Agrees(s) && Strict(s, actions)
    ensures Agrees(Run(s, actions))
  {
    if actions != [] {
      var init := actions[..|actions| - 1];
      RunAgrees(s, init);
      RunIsGood(s, init);
      StepAgrees(Run(s, init), actions[|actions| - 1]);
    }
  }

  /** In every reachable state an event that is neither resolved nor skipped is pending or has the aggregate
      of its deliveries as its status, and exactly the aggregate unless the worker still owes it a write
      or was cut short before one. */
  lemma StatusMatchesDeliveries(db: Db, clock: Time, actions: seq<Action>, e: nat)
    requires Empty(db) && Strict(Start0(db, clock), actions)
    requires e in Run(Start0(db, clock), actions).db.events
    ensures var s := Run(Start0(db, clock), actions);
            var status := s.db.events[e].status;
            status != Resolved && status != Skipped ==>
              && (status == Queued || status == Aggregate(s.db.deliveries, e))
              && (e !in s.cut && e !in Owed(s.phase) ==> status == Aggregate(s.db.deliveries, e))
  {
    StartIsGood(db, clock);
    RunAgrees(Start0(db, clock), actions);
    assert StatusAgrees(Run(Start0(db, clock), actions), e);
  }

  // ---- what never changes ---------------------------------------------------------------

  /** How an event row may look later: the same event, and once resolved the same row. */
  ghost predicate Lasts(row: EventRow, later: EventRow) {
    && later.key == row.key && later.severity == row.severity && later.dedupKey == row.dedupKey
    && later.createdAt == row.createdAt
    && (row.resolvedAt.Some? ==> later.resolvedAt == row.resolvedAt)
    && (row.status == Resolved && row.resolvedAt.Some? ==> later.status == Resolved)
  }

  lemma StepLasts(s: Sys, a: Action, e: nat)
    requires Good(s) && e in s.db.events
    ensures e in Step(s, a).db.events && Lasts(s.db.events[e], Step(s, a).db.events[e])
  {
    if !a.Enqueue? {
      OnlyWriteTouchesEvents(s, a);
      if a.Write? {
        WriteLasts(s, e);
      }
    } else if ValidEvent(a.event) {
      EnqueueEffect(s.db, a.event, a.now);
      assert EventStays(s.db.events[e], EnqueueTx(s.db, a.event, a.now).0.events[e], a.event, a.now);
    }
  }

  lemma WriteLasts(s: Sys, e: nat)
    requires e in s.db.events
    ensures e in WriteStep(s).db.events && Lasts(s.db.events[e], WriteStep(s).db.events[e])
  {
  }

  /** Over any run an event keeps its rule, severity, dedup key and creation time; the time of its resolution never changes
      once there is one; and a resolved event stays resolved, whatever the worker counts or writes afterwards. */
  lemma {:induction false} ResolvedIsForever(s: Sys, actions: seq<Action>, e: nat)
    requires Good(s) && e in s.db.events
    ensures var s' := Run(s, actions); e in s'.db.events && Lasts(s.db.events[e], s'.db.events[e])
  {
    if actions != [] {
      var init := actions[..|actions| - 1];
      ResolvedIsForever(s, init, e);
      RunIsGood(s, init);
      StepLasts(Run(s, init), actions[|actions| - 1], e);
    }
  }
}
