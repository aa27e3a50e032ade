/** What the worker achieves when nothing disturbs it: calls far enough apart bring every delivery to an end. */
module Progress {
  import opened Common
  import opened Store
  import opened Alerts
  import opened Worker
  import opened Process
  import opened Drain
  import opened Refinement
  import EventStatuses
  import Lifecycle
  import Pace = Backoff

  /** The longest backoff. */
  const HOUR: int := 3600 * SECOND

  predicate Statement(a: Action) {
    a.Read? || a.Claim? || a.Load? || a.Send? || a.Record? || a.CountOpen? || a.CountFailed? || a.Write?
  }

  /** A property that no statement of the worker destroys. */
  ghost predicate WorkerKeeps(inv: Sys -> bool) {
    forall s: Sys, a: Action :: Statement(a) && inv(s) ==> inv(Step(s, a))
  }

  /** The statements of one call, one after the other. */
  function Call(s: Sys, plan: Plan): Sys {
    Finish(Deliver(ClaimStep(ReadStep(s, plan.now)), plan.sent))
  }

  function Deliver(s: Sys, sent: bool): Sys {
    RecordStep(SendStep(LoadStep(LoadStep(LoadStep(s))), sent))
  }

  function Finish(s: Sys): Sys {
    WriteStep(CountStep(CountStep(s, false), true))
  }

  lemma CallKeeps(s: Sys, plan: Plan, inv: Sys -> bool)
    requires WorkerKeeps(inv) && inv(s)
    ensures inv(Call(s, plan))
  {
    var s1 := ReadStep(s, plan.now);
    assert inv(Step(s, Read(plan.now)));
    assert inv(Step(s1, Claim));
    DeliverKeeps(ClaimStep(s1), plan.sent, inv);
    FinishKeeps(Deliver(ClaimStep(s1), plan.sent), inv);
  }

  lemma DeliverKeeps(s: Sys, sent: bool, inv: Sys -> bool)
    requires WorkerKeeps(inv) && inv(s)
    ensures inv(Deliver(s, sent))
  {
    var s1 := LoadStep(s);
    assert inv(Step(s, Load));
    var s2 := LoadStep(s1);
    assert inv(Step(s1, Load));
    var s3 := LoadStep(s2);
    assert inv(Step(s2, Load));
    var s4 := SendStep(s3, sent);
    assert inv(Step(s3, Send(sent)));
    assert inv(Step(s4, Record));
  }

  lemma FinishKeeps(s: Sys, inv: Sys -> bool)
    requires WorkerKeeps(inv) && inv(s)
    ensures inv(Finish(s))
  {
    var s1 := CountStep(s, false);
    assert inv(Step(s, CountOpen));
    var s2 := CountStep(s1, true);
    assert inv(Step(s1, CountFailed));
    assert inv(Step(s2, Write));
  }

  /** A call that nothing disturbs and in which no statement fails. */
  predicate Calm(plan: Plan) {
    Undisturbed(plan) && plan.stop.Nowhere?
  }

  lemma FinishIs(s: Sys, plan: Plan)
    requires Calm(plan) && s.phase.ToCountOpen?
    ensures CountOnward(s, plan).sys == Finish(s)
  {
    NoInterruption(s, plan, 7);
    NoInterruption(CountStep(s, false), plan, 8);
    NoInterruption(CountStep(CountStep(s, false), true), plan, 9);
  }

  /** From the first lookup on: three lookups, the send, the record. */
  lemma LookUpIs(s: Sys, plan: Plan)
    requires Calm(plan) && Good(s) && Lifecycle.Referenced(s.db) && s.phase.ToLoad? && s.phase.found == 0
    ensures LookUpOnward(s, plan, 0).sys == Finish(Deliver(s, plan.sent))
  {
    var s1, s2, s3 := LoadStep(s), LoadStep(LoadStep(s)), LoadStep(LoadStep(LoadStep(s)));
    LoadsSucceed(s);
    NoInterruption(s, plan, 2);
    NoInterruption(s1, plan, 3);
    NoInterruption(s2, plan, 4);
    NoInterruption(s3, plan, 5);
    assert LookUpOnward(s, plan, 0) == LookUpOnward(s1, plan, 1);
    assert LookUpOnward(s1, plan, 1) == LookUpOnward(s2, plan, 2);
    RecordIs(s3, plan);
  }

  lemma LoadsSucceed(s: Sys)
    requires Good(s) && Lifecycle.Referenced(s.db) && s.phase.ToLoad? && s.phase.found == 0
    ensures var s1, s2 := LoadStep(s), LoadStep(LoadStep(s));
            && s1.phase.ToLoad? && s1.phase.found == 1 && s2.phase.ToLoad? && s2.phase.found == 2
            && LoadStep(s2).phase.ToSend?
  {
    Lifecycle.LookUpNeverFails(s);
    assert LoadStep(s).db == s.db;
    HoldingIsGood(s, 0, true);
    Lifecycle.LookUpNeverFails(LoadStep(s));
  }

  lemma RecordIs(s: Sys, plan: Plan)
    requires Calm(plan) && s.phase.ToSend?
    ensures RecordOnward(SendStep(s, plan.sent), plan).sys == Finish(RecordStep(SendStep(s, plan.sent)))
  {
    var s4 := SendStep(s, plan.sent);
    NoInterruption(s4, plan, 6);
    FinishIs(RecordStep(s4), plan);
  }

  /** Nothing happens in a call that finds nothing due. */
  lemma IdleCall(s: Sys, plan: Plan)
    requires s.phase.Idle? && ReadStep(s, plan.now) == s
    ensures Call(s, plan) == s
  {
  }

  lemma ClaimedCall(s: Sys, plan: Plan)
    requires Calm(plan) && Good(s) && Lifecycle.Referenced(s.db) && s.phase.ToClaim?
    requires s.phase.id in s.db.deliveries && s.db.deliveries[s.phase.id].status == Pending
    ensures ClaimOnward(s, plan).sys == Finish(Deliver(ClaimStep(s), plan.sent))
  {
    ClaimTakes(s);
    ClaimOnwardIs(s, plan);
    Lifecycle.ClaimSame(s);
    Lifecycle.SameKeepsReferences(s.db, ClaimStep(s).db);
    LookUpIs(ClaimStep(s), plan);
  }

  lemma CallIsProcess(s: Sys, plan: Plan)
    requires Calm(plan) && Good(s) && Lifecycle.Referenced(s.db) && s.phase.Idle?
    ensures Process.ProcessOnce(s, plan).sys == Call(s, plan)
  {
    NoInterruption(s, plan, 0);
    var s1 := ReadStep(s, plan.now);
    if s1.phase.ToClaim? {
      HoldingIsGood(s, plan.now, true);
      ClaimedCall(s1, plan);
    } else {
      IdleCall(s, plan);
    }
  }

  // ---- what a call does -----------------------------------------------------------------

  /** A row that a call at this clock reading may take. */
  predicate Waits(d: Delivery, now: Time) {
    d.status == Pending && (d.nextAttemptAt.None? || d.nextAttemptAt.value <= now)
  }

  /** The first row that waits. */
  ghost predicate Next(db: Db, id: nat, now: Time) {
    && id in db.deliveries && Waits(db.deliveries[id], now)
    && forall other :: other in db.deliveries && other < id ==> !Waits(db.deliveries[other], now)
  }

  /** The row after its send. */
  function RowAfter(d: Delivery, sent: bool, retryCount: int, now: Time): Delivery {
    if sent then
      Delivery(d.eventId, d.recipientId, Delivered, d.attempts + 1, d.nextAttemptAt, Some(now))
    else
      Delivery(d.eventId, d.recipientId, if d.attempts + 1 > retryCount then Failed else Pending, d.attempts + 1,
               Some(now + Pace.Delay(d.attempts + 1) * SECOND), d.deliveredAt)
  }

  lemma NextIsRead(s: Sys, id: nat, now: Time)
    requires Good(s) && s.phase.Idle? && Next(s.db, id, now)
    ensures ReadStep(s, now) == s.(phase := ToClaim(now, id, s.db.deliveries[id]))
  {
    assert Due(s.db.deliveries[id], now);
  }

  /** From the claim to the record. */
  lemma DeliverIs(s: Sys, s2: Sys, id: nat, d: Delivery, now: Time, sent: bool)
    requires Good(s2) && Lifecycle.Referenced(s2.db) && id in s.db.deliveries && d == s.db.deliveries[id]
    requires s2 == s.(db := ClaimRow(s.db, id), phase := ToLoad(now, id, d, 0))
    ensures Deliver(s2, sent) ==
              s.(db := s.db.(deliveries := s.db.deliveries[id := RowAfter(d, sent, s.db.retryCount, now)]),
                 phase := ToCountOpen(now, d.eventId), sends := s.sends + [Attempt(id, now, sent)])
  {
    LoadsAre(s2, id, d, now);
    Pace.BackoffIsDelay(d.attempts + 1);
    SendAndRecord(s, s2.(phase := ToSend(now, id, d, s.db.retryCount)), id, d, now, sent);
  }

  lemma LoadsAre(s: Sys, id: nat, d: Delivery, now: Time)
    requires Good(s) && Lifecycle.Referenced(s.db) && s.phase == ToLoad(now, id, d, 0)
    ensures LoadStep(LoadStep(LoadStep(s))) == s.(phase := ToSend(now, id, d, s.db.retryCount))
  {
    LoadsSucceed(s);
  }

  lemma SendAndRecord(s: Sys, s3: Sys, id: nat, d: Delivery, now: Time, sent: bool)
    requires id in s.db.deliveries && d == s.db.deliveries[id]
    requires s3 == s.(db := ClaimRow(s.db, id), phase := ToSend(now, id, d, s.db.retryCount))
    requires Store.Backoff(d.attempts + 1) == Pace.Delay(d.attempts + 1) * SECOND
    ensures RecordStep(SendStep(s3, sent)) ==
              s.(db := s.db.(deliveries := s.db.deliveries[id := RowAfter(d, sent, s.db.retryCount, now)]),
                 phase := ToCountOpen(now, d.eventId), sends := s.sends + [Attempt(id, now, sent)])
  {
    var final := RowAfter(d, sent, s.db.retryCount, now);
    assert s.db.deliveries[id := d.(status := Sending)][id := final] == s.db.deliveries[id := final];
  }

  /** Counting twice and writing gives the event its aggregate, unless it is resolved. */
  lemma FinishWrites(s: Sys, now: Time, e: nat)
    requires s.phase == ToCountOpen(now, e) && e in s.db.events
    ensures Finish(s) ==
              s.(db := s.db.(events := Settle(s.db.events, e, EventStatuses.Aggregate(s.db.deliveries, e))),
                 phase := Idle, cut := s.cut - {e})
  {
    EventStatuses.CountsGiveAggregate(s.db.deliveries, e);
  }

  function Settle(events: map<nat, EventRow>, e: nat, status: EventStatus): map<nat, EventRow>
    requires e in events
  {
    if events[e].status == Resolved then events
    else
      var row := events[e];
      events[e := EventRow(row.key, row.severity, row.dedupKey, status, row.createdAt, row.resolvedAt)]
  }

  lemma CallStateIs(s: Sys, plan: Plan, id: nat)
    requires Good(s) && Lifecycle.Referenced(s.db) && s.phase.Idle?
    requires Next(s.db, id, plan.now)
    ensures var d := s.db.deliveries[id];
            var ds := s.db.deliveries[id := RowAfter(d, plan.sent, s.db.retryCount, plan.now)];
            && d.eventId in s.db.events
            && Call(s, plan) == s.(
                 db := s.db.(deliveries := ds, events := Settle(s.db.events, d.eventId, EventStatuses.Aggregate(ds, d.eventId))),
                 sends := s.sends + [Attempt(id, plan.now, plan.sent)], cut := s.cut - {d.eventId})
  {
    var now, d := plan.now, s.db.deliveries[id];
    NextIsRead(s, id, now);
    HoldingIsGood(s, now, true);
    var s1 := ReadStep(s, now);
    ClaimIsGood(s1);
    Lifecycle.ClaimSame(s1);
    Lifecycle.SameKeepsReferences(s1.db, ClaimStep(s1).db);
    DeliverIs(s, ClaimStep(s1), id, d, now, plan.sent);
    FinishWrites(Deliver(ClaimStep(s1), plan.sent), now, d.eventId);
  }

  /** A calm call takes the first row that waits, sends it once, and records it: delivered now, or one attempt more and due
      again after the delay, or failed when the attempts exceed the retry count. Its event then has the aggregate of its
      deliveries, unless it is resolved. Nothing else changes. */
  lemma CallIsExact(s: Sys, plan: Plan, id: nat)
    requires Calm(plan) && Good(s) && Lifecycle.Referenced(s.db) && s.phase.Idle?
    requires Next(s.db, id, plan.now)
    ensures var d := s.db.deliveries[id];
            var ds := s.db.deliveries[id := RowAfter(d, plan.sent, s.db.retryCount, plan.now)];
            && d.eventId in s.db.events
            && Process.ProcessOnce(s, plan).sys == s.(
                 db := s.db.(deliveries := ds, events := Settle(s.db.events, d.eventId, EventStatuses.Aggregate(ds, d.eventId))),
                 sends := s.sends + [Attempt(id, plan.now, plan.sent)], cut := s.cut - {d.eventId})
  {
    CallStateIs(s, plan, id);
    CallIsProcess(s, plan);
  }

  // ---- what a call reports --------------------------------------------------------------

  /** Some row waits. */
  ghost predicate SomeWaits(db: Db, now: Time) {
    exists id :: id in db.deliveries && Waits(db.deliveries[id], now)
  }

  /** A statement that fails after the send was made. */
  predicate StopsLate(stop: Stop) {
    stop == AtRecord || stop == AtCount(0) || stop == AtCount(1) || stop == AtWrite
  }

  predicate StopsAtLookup(stop: Stop, from: nat) {
    stop.AtLookup? && from <= stop.k <= 2
  }

  lemma RecordReports(s: Sys, plan: Plan)
    ensures RecordOnward(s, plan).failed <==> StopsLate(plan.stop)
  {
  }

  ghost predicate Sturdy(s: Sys) {
    Good(s) && Lifecycle.Referenced(s.db)
  }

  lemma BurstIsSturdy(s: Sys, plan: Plan, i: nat)
    requires Sturdy(s)
    ensures Sturdy(Interrupted(s, plan, i)) && Interrupted(s, plan, i).phase == s.phase
  {
    var inv := (x: Sys) => Sturdy(x);
    forall x: Sys, a: Action | inv(x) ensures inv(Step(x, a)) {
      StepIsGood(x, a);
      Lifecycle.StepKeepsReferences(x, a);
    }
    BurstKeeps(s, Gap(plan, i), inv);
  }

  lemma LoadIsSturdy(s: Sys)
    requires Sturdy(s) && s.phase.ToLoad? && s.phase.found <= 2
    ensures var s' := LoadStep(s);
            Sturdy(s') && if s.phase.found < 2 then s'.phase.ToLoad? && s'.phase.found == s.phase.found + 1 else s'.phase.ToSend?
  {
    Lifecycle.LookUpNeverFails(s);
    HoldingIsGood(s, 0, true);
    assert LoadStep(s).db == s.db;
  }

  /** One lookup, and what follows it. */
  lemma LookUpUnfolds(s: Sys, s2: Sys, plan: Plan, k: nat)
    requires k <= 2 && s2 == Interrupted(s, plan, 2 + k)
    ensures plan.stop == AtLookup(k) ==> LookUpOnward(s, plan, k).failed
    ensures plan.stop != AtLookup(k) && k < 2 && LoadStep(s2).phase.ToLoad? ==>
              LookUpOnward(s, plan, k) == LookUpOnward(LoadStep(s2), plan, k + 1)
    ensures plan.stop != AtLookup(k) && LoadStep(s2).phase.ToSend? ==> (LookUpOnward(s, plan, k).failed <==> StopsLate(plan.stop))
  {
    if plan.stop != AtLookup(k) && LoadStep(s2).phase.ToSend? {
      RecordReports(SendStep(Interrupted(LoadStep(s2), plan, 5), plan.sent), plan);
    }
  }

  lemma {:induction false} LookUpReports(s: Sys, plan: Plan, k: nat, r: Outcome)
    requires Sturdy(s) && s.phase.ToLoad? && s.phase.found == k <= 2 && r == LookUpOnward(s, plan, k)
    ensures r.failed <==> StopsAtLookup(plan.stop, k) || StopsLate(plan.stop)
    decreases 2 - k
  {
    BurstIsSturdy(s, plan, 2 + k);
    var s2 := Interrupted(s, plan, 2 + k);
    LookUpUnfolds(s, s2, plan, k);
    if plan.stop != AtLookup(k) {
      LoadIsSturdy(s2);
      if k < 2 {
        LookUpReports(LoadStep(s2), plan, k + 1, r);
      }
    }
  }

  /** Whether the row that was read is still there to be taken when the claim is made. */
  predicate ClaimHolds(s: Sys, plan: Plan) {
    var s1 := Interrupted(s, plan, 1);
    s1.phase.ToClaim? && s1.phase.id in s1.db.deliveries && s1.db.deliveries[s1.phase.id].status == Pending
  }

  lemma ClaimUnfolds(s: Sys, plan: Plan)
    ensures ClaimOnward(s, plan).processed <==> plan.stop != AtClaim
    ensures plan.stop == AtClaim ==> ClaimOnward(s, plan).failed
    ensures var s2 := ClaimStep(Interrupted(s, plan, 1));
            plan.stop != AtClaim ==>
              ClaimOnward(s, plan).failed == (s2.phase.ToLoad? && LookUpOnward(s2, plan, 0).failed)
  {
  }

  lemma ClaimIsSturdy(s: Sys)
    requires Sturdy(s) && s.phase.ToClaim?
    ensures Sturdy(ClaimStep(s))
    ensures var s2 := ClaimStep(s);
            if s.phase.id in s.db.deliveries && s.db.deliveries[s.phase.id].status == Pending
            then s2.phase.ToLoad? && s2.phase.found == 0 else !s2.phase.ToLoad?
  {
    ClaimIsGood(s);
    Lifecycle.ClaimSame(s);
    Lifecycle.SameKeepsReferences(s.db, ClaimStep(s).db);
  }

  lemma ClaimReports(s: Sys, plan: Plan)
    requires Sturdy(s) && s.phase.ToClaim?
    ensures ClaimOnward(s, plan).processed <==> plan.stop != AtClaim
    ensures ClaimOnward(s, plan).failed <==>
              plan.stop == AtClaim || (ClaimHolds(s, plan) && (StopsAtLookup(plan.stop, 0) || StopsLate(plan.stop)))
  {
    BurstIsSturdy(s, plan, 1);
    ClaimUnfolds(s, plan);
    if plan.stop != AtClaim {
      var s1 := Interrupted(s, plan, 1);
      ClaimIsSturdy(s1);
      if ClaimHolds(s, plan) {
        LookUpReports(ClaimStep(s1), plan, 0, LookUpOnward(ClaimStep(s1), plan, 0));
      }
    }
  }

  /** For every interleaving and every failing statement: a call reports progress if and only if it found a row that waits
      and neither the read nor the claim failed, also when another transaction took the row away; and an error if and only
      if one of the statements it reached failed. */
  lemma ResultsAre(s: Sys, plan: Plan)
    requires Good(s) && Lifecycle.Referenced(s.db) && s.phase.Idle?
    ensures var end, s0 := Process.ProcessOnce(s, plan), Interrupted(s, plan, 0);
            var found := SomeWaits(s0.db, plan.now);
            && (end.processed <==> found && plan.stop != AtRead && plan.stop != AtClaim)
            && (end.failed <==>
                  || plan.stop == AtRead
                  || (found && plan.stop == AtClaim)
                  || (found && ClaimHolds(ReadStep(s0, plan.now), plan)
                      && (StopsAtLookup(plan.stop, 0) || StopsLate(plan.stop))))
  {
    BurstIsSturdy(s, plan, 0);
    var s0 := Interrupted(s, plan, 0);
    ReadFinds(s0, plan.now);
    if plan.stop != AtRead && SomeWaits(s0.db, plan.now) {
      HoldingIsGood(s0, plan.now, true);
      ClaimReports(ReadStep(s0, plan.now), plan);
    }
  }

  lemma ReadFinds(s: Sys, now: Time)
    requires Good(s) && s.phase.Idle?
    ensures ReadStep(s, now).phase.ToClaim? <==> SomeWaits(s.db, now)
    ensures ReadStep(s, now).db == s.db && (!SomeWaits(s.db, now) ==> ReadStep(s, now) == s)
  {
    if SomeWaits(s.db, now) {
      var id :| id in s.db.deliveries && Waits(s.db.deliveries[id], now);
      assert Due(s.db.deliveries[id], now);
    }
  }

  // ---- what a call keeps ----------------------------------------------------------------

  /** All that has been shown of the tables and the worker, and that no row is in "sending" unheld. */
  ghost predicate Sane(s: Sys) {
    Good(s) && Lifecycle.Referenced(s.db) && Lifecycle.OnlyHeld(s) && EventStatuses.Agrees(s)
  }

  lemma StatementKeepsSane(s: Sys, a: Action)
    requires Sane(s) && Statement(a)
    ensures Sane(Step(s, a))
  {
    StepIsGood(s, a);
    Lifecycle.StepKeepsReferences(s, a);
    EventStatuses.StepAgrees(s, a);
    StatementKeepsHeld(s, a);
  }

  lemma StatementKeepsHeld(s: Sys, a: Action)
    requires Sane(s) && Statement(a)
    ensures Lifecycle.OnlyHeld(Step(s, a))
  {
    Lifecycle.LookUpNeverFails(s);
    if a.Claim? || a.Record? {
      Lifecycle.RowMovesHeld(s, Step(s, a), a);
    } else {
      Lifecycle.PassHeld(s, a);
    }
  }

  lemma CallKeepsSane(s: Sys, plan: Plan)
    requires Sane(s)
    ensures Sane(Call(s, plan))
  {
    var inv := x => Sane(x);
    forall x: Sys, a: Action | Statement(a) && inv(x) ensures inv(Step(x, a)) {
      StatementKeepsSane(x, a);
    }
    CallKeeps(s, plan, inv);
  }

  /** No statement cuts a call short. */
  lemma CallCutsNothing(s: Sys, plan: Plan)
    ensures Call(s, plan).cut <= s.cut
  {
    var inv := (x: Sys) => x.cut <= s.cut;
    forall x: Sys, a: Action | Statement(a) && inv(x) ensures inv(Step(x, a)) {
      StatementCutsNothing(x, a);
    }
    CallKeeps(s, plan, inv);
  }

  lemma StatementCutsNothing(s: Sys, a: Action)
    requires Statement(a)
    ensures Step(s, a).cut <= s.cut
  {
  }

  // ---- when rows are due ----------------------------------------------------------------

  /** Every pending delivery is due by then. */
  ghost predicate DueBy(db: Db, t: Time) {
    forall id :: id in db.deliveries && db.deliveries[id].status == Pending ==> Due(db.deliveries[id], t)
  }

  /** And the row the worker holds was read at `now`. */
  ghost predicate Timed(s: Sys, now: Time) {
    DueBy(s.db, now + HOUR) && (s.phase.ToClaim? || s.phase.ToLoad? || s.phase.ToSend? || s.phase.ToRecord? ==> s.phase.now == now)
  }

  lemma BackoffIsShort(attempts: nat)
    ensures Store.Backoff(attempts) <= HOUR
  {
  }

  lemma RowTimed(s: Sys, now: Time)
    requires Timed(s, now)
    ensures Timed(ClaimStep(s), now) && Timed(RecordStep(s), now)
  {
    if s.phase.ToRecord? {
      BackoffIsShort(s.phase.row.attempts + 1);
    }
  }

  lemma HoldTimed(s: Sys, now: Time, ok: bool)
    requires Timed(s, now)
    ensures Timed(ReadStep(s, now), now) && Timed(LoadStep(s), now) && Timed(SendStep(s, ok), now)
  {
  }

  lemma FinishTimed(s: Sys, now: Time)
    requires Timed(s, now)
    ensures Timed(Finish(s), now)
  {
  }

  lemma CallTimed(s: Sys, plan: Plan)
    requires s.phase.Idle? && DueBy(s.db, plan.now)
    ensures Timed(Call(s, plan), plan.now)
  {
    var now := plan.now;
    assert Timed(s, now);
    var s1 := ReadStep(s, now);
    HoldTimed(s, now, true);
    RowTimed(s1, now);
    DeliverTimed(ClaimStep(s1), now, plan.sent);
    FinishTimed(Deliver(ClaimStep(s1), plan.sent), now);
  }

  lemma DeliverTimed(s: Sys, now: Time, sent: bool)
    requires Timed(s, now)
    ensures Timed(Deliver(s, sent), now)
  {
    var s1 := LoadStep(s);
    HoldTimed(s, now, true);
    var s2 := LoadStep(s1);
    HoldTimed(s1, now, true);
    var s3 := LoadStep(s2);
    HoldTimed(s2, now, true);
    HoldTimed(s3, now, sent);
    RowTimed(SendStep(s3, sent), now);
  }

  // ---- claims -----------------------------------------------------------------------------

  lemma {:induction false} PendingHasClaims(ds: map<nat, Delivery>, retryCount: int, below: nat, id: nat)
    requires id in ds && id < below && ds[id].status == Pending
    ensures 0 < ClaimsBelow(ds, retryCount, below)
  {
    if id != below - 1 {
      PendingHasClaims(ds, retryCount, below - 1, id);
    }
  }

  ghost predicate NonePending(db: Db) {
    forall id :: id in db.deliveries ==> db.deliveries[id].status != Pending
  }

  lemma NoClaimsNonePending(db: Db)
    requires WellFormed(db) && ClaimsLeft(db) == 0
    ensures NonePending(db)
  {
    forall id | id in db.deliveries && db.deliveries[id].status == Pending ensures false {
      PendingHasClaims(db.deliveries, db.retryCount, db.nextDelivery, id);
    }
  }

  // ---- repeated calls ---------------------------------------------------------------------

  /** n calls of ProcessOnce under plans i, i + 1, and so on. */
  function Calls(s: Sys, plans: nat -> Plan, i: nat, n: nat): Sys
    decreases n
  {
    if n == 0 then s else Calls(Process.ProcessOnce(s, plans(i)).sys, plans, i + 1, n - 1)
  }

  /** Undisturbed calls without failing statements, at clock readings at least an hour apart. */
  ghost predicate Hourly(plans: nat -> Plan) {
    forall i: nat :: HourlyAt(plans, i)
  }

  ghost predicate HourlyAt(plans: nat -> Plan, i: nat) {
    Calm(plans(i)) && plans(i + 1).now >= plans(i).now + HOUR
  }

  /** Ready for a call at this clock reading: idle, and whatever is pending is due. */
  ghost predicate Ready(s: Sys, now: Time) {
    Sane(s) && s.phase.Idle? && DueBy(s.db, now)
  }

  /** What one call does for progress. */
  lemma OneCall(s: Sys, plan: Plan)
    requires Ready(s, plan.now) && Calm(plan)
    ensures var s' := Process.ProcessOnce(s, plan).sys;
            && Ready(s', plan.now + HOUR) && s'.cut <= s.cut
            && ClaimsLeft(s'.db) <= ClaimsLeft(s.db) && (ClaimsLeft(s.db) > 0 ==> ClaimsLeft(s'.db) < ClaimsLeft(s.db))
  {
    CallIsProcess(s, plan);
    CallKeepsSane(s, plan);
    CallCutsNothing(s, plan);
    CallTimed(s, plan);
    ProcessLowers(s, plan);
    EndsIdle(s, plan);
    if ClaimsLeft(s.db) > 0 {
      SomethingIsDue(s, plan.now);
      DueMeansProcessed(s, plan);
    }
  }

  lemma EndsIdle(s: Sys, plan: Plan)
    requires s.phase.Idle?
    ensures Process.ProcessOnce(s, plan).sys.phase.Idle?
  {
    var inv := (x: Sys) => true;
    ProcessKeeps(s, plan, inv);
  }

  ghost predicate SomeDue(db: Db, now: Time) {
    exists id :: id in db.deliveries && Due(db.deliveries[id], now)
  }

  lemma SomethingIsDue(s: Sys, now: Time)
    requires Good(s) && DueBy(s.db, now) && ClaimsLeft(s.db) > 0
    ensures SomeDue(s.db, now)
  {
    if NonePending(s.db) {
      NoneLeft(s.db.deliveries, s.db.retryCount, s.db.nextDelivery);
    } else {
      var id :| id in s.db.deliveries && s.db.deliveries[id].status == Pending;
      assert Due(s.db.deliveries[id], now);
    }
  }

  lemma {:induction false} NoneLeft(ds: map<nat, Delivery>, retryCount: int, below: nat)
    requires forall id :: id in ds ==> ds[id].status != Pending
    ensures ClaimsBelow(ds, retryCount, below) == 0
  {
    if below > 0 {
      NoneLeft(ds, retryCount, below - 1);
    }
  }

  lemma DueMeansProcessed(s: Sys, plan: Plan)
    requires Good(s) && s.phase.Idle? && Calm(plan) && SomeDue(s.db, plan.now)
    ensures Process.ProcessOnce(s, plan).processed
  {
    NoInterruption(s, plan, 0);
    var s1 := ReadStep(s, plan.now);
    assert s1.phase.ToClaim?;
    HoldingIsGood(s, plan.now, true);
    ClaimTakes(s1);
    ClaimOnwardIs(s1, plan);
  }

  lemma DueLater(db: Db, t: Time, t': Time)
    requires DueBy(db, t) && t <= t'
    ensures DueBy(db, t')
  {
  }

  /** The first of n calls: the state it leaves, and what is left to do. */
  lemma FirstCall(s: Sys, plans: nat -> Plan, i: nat, n: nat) returns (s1: Sys)
    requires Ready(s, plans(i).now) && Hourly(plans) && 0 < n && ClaimsLeft(s.db) <= n
    ensures Calls(s, plans, i, n) == Calls(s1, plans, i + 1, n - 1)
    ensures Ready(s1, plans(i + 1).now) && s1.cut <= s.cut && ClaimsLeft(s1.db) <= n - 1
  {
    assert HourlyAt(plans, i);
    s1 := Process.ProcessOnce(s, plans(i)).sys;
    OneCall(s, plans(i));
    DueLater(s1.db, plans(i).now + HOUR, plans(i + 1).now);
  }

  /** As many calls as there are claims left leave nothing pending. */
  lemma {:induction false} CallsFinish(s: Sys, plans: nat -> Plan, i: nat, n: nat)
    requires Ready(s, plans(i).now) && Hourly(plans) && ClaimsLeft(s.db) <= n
    ensures var s' := Calls(s, plans, i, n); Sane(s') && s'.phase.Idle? && s'.cut <= s.cut && NonePending(s'.db)
    decreases n
  {
    if n == 0 {
      NoClaimsNonePending(s.db);
    } else {
      var s1 := FirstCall(s, plans, i, n);
      CallsFinish(s1, plans, i + 1, n - 1);
    }
  }

  /** From any reachable idle state with no row left in "sending", without new events, disturbances or failing statements:
      once every pending delivery is due, calls at least an hour apart, at least as many as there are claims left, make
      every delivery final and give every event that is neither resolved nor skipped, and that no earlier call was cut
      short on, the aggregate of its deliveries. */
  lemma QueueDrains(db: Db, clock: Time, actions: seq<Action>, plans: nat -> Plan, n: nat)
    requires Empty(db) && EventStatuses.Strict(Start0(db, clock), actions)
    requires var s := Run(Start0(db, clock), actions);
             && s.phase.Idle? && Lifecycle.OnlyHeld(s) && DueBy(s.db, plans(0).now) && ClaimsLeft(s.db) <= n
    requires Hourly(plans)
    ensures var s := Run(Start0(db, clock), actions);
            var s' := Calls(s, plans, 0, n);
            && (forall id :: id in s'.db.deliveries ==> Lifecycle.Final(s'.db.deliveries[id].status))
            && (forall e :: e in s'.db.events && e !in s.cut ==>
                  s'.db.events[e].status in {Resolved, Skipped, EventStatuses.Aggregate(s'.db.deliveries, e)})
  {
    var s := Run(Start0(db, clock), actions);
    ReachableIsSane(db, clock, actions);
    CallsFinish(s, plans, 0, n);
    Settled(s, Calls(s, plans, 0, n));
  }

  lemma ReachableIsSane(db: Db, clock: Time, actions: seq<Action>)
    requires Empty(db) && EventStatuses.Strict(Start0(db, clock), actions)
    requires Lifecycle.OnlyHeld(Run(Start0(db, clock), actions))
    ensures Sane(Run(Start0(db, clock), actions))
  {
    StartIsGood(db, clock);
    RunIsGood(Start0(db, clock), actions);
    Lifecycle.RunKeepsReferences(Start0(db, clock), actions);
    EventStatuses.RunAgrees(Start0(db, clock), actions);
  }

  lemma Settled(s: Sys, s': Sys)
    requires Sane(s') && s'.phase.Idle? && s'.cut <= s.cut && NonePending(s'.db)
    ensures forall id :: id in s'.db.deliveries ==> Lifecycle.Final(s'.db.deliveries[id].status)
    ensures forall e :: e in s'.db.events && e !in s.cut ==>
              s'.db.events[e].status in {Resolved, Skipped, EventStatuses.Aggregate(s'.db.deliveries, e)}
  {
    forall id | id in s'.db.deliveries ensures Lifecycle.Final(s'.db.deliveries[id].status) {
      assert !Lifecycle.Holds(s'.phase, id);
    }
    forall e | e in s'.db.events && e !in s.cut
      ensures s'.db.events[e].status in {Resolved, Skipped, EventStatuses.Aggregate(s'.db.deliveries, e)}
    {
      assert EventStatuses.StatusAgrees(s', e);
    }
  }
}
