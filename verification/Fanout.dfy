/** One event row a dedup key, one delivery a recipient, and when an accepted alert reaches anybody at all. */
module Fanout {
  import opened Common
  import opened Store
  import opened Alerts
  import opened Worker
  import opened Scopes
  import Decimal
  import Lifecycle
  import EventStatuses

  /** In every reachable state dedup keys are unique and no event has two deliveries to one recipient. */
  lemma FanOutHappensOnce(db: Db, clock: Time, actions: seq<Action>)
    requires Empty(db)
    ensures var s := Run(Start0(db, clock), actions); UniqueKeys(s.db) && OncePerRecipient(s.db)
  {
    StartIsGood(db, clock);
    RunIsGood(Start0(db, clock), actions);
  }

  /** A delivery is created only by the step that inserts its event, and that step gives the event exactly one
      pending delivery for each recipient chosen. */
  lemma DeliveriesComeWithTheirEvent(s: Sys, a: Action, id: nat)
    requires Good(s) && id in Step(s, a).db.deliveries && id !in s.db.deliveries
    ensures var s' := Step(s, a);
            var e := s'.db.deliveries[id].eventId;
            && a.Enqueue? && e !in s.db.events && e in s'.db.events
            && (forall r :: r in Chosen(s.db, a.event.audience, a.event.key) <==> Serves(s'.db.deliveries, e, r))
  {
    Lifecycle.StepAdds(s, a, id);
    var db' := Step(s, a).db;
    assert ValidEvent(a.event) && db' == EnqueueTx(s.db, a.event, a.now).0;
    EnqueueEffect(s.db, a.event, a.now);
    NewDeliveryIsServed(s.db, db', a.event, a.now, id);
  }

  lemma NewDeliveryIsServed(db: Db, db': Db, e: Event, now: Time, id: nat)
    requires WellFormed(db) && Effect(db, db', e, now) && id in db'.deliveries && id !in db.deliveries
    ensures var event := db'.deliveries[id].eventId;
            && event !in db.events && event in db'.events
            && forall r :: r in Chosen(db, e.audience, e.key) <==> Serves(db'.deliveries, event, r)
  {
    NewDeliveryAt(db, db', e, now, id);
    AllChosenServed(db, db', e, now);
  }

  /** Some row gives the event to the recipient. */
  ghost predicate Serves(ds: map<nat, Delivery>, event: nat, r: nat) {
    exists d :: d in ds && ds[d].eventId == event && ds[d].recipientId == r
  }

  lemma ChosenIsServed(db: Db, db': Db, e: Event, now: Time, r: nat)
    requires Effect(db, db', e, now) && db.nextEvent < db'.nextEvent && r in Chosen(db, e.audience, e.key)
    ensures Serves(db'.deliveries, db.nextEvent, r)
  {
    var to := Chosen(db, e.audience, e.key);
    var i :| 0 <= i < |to| && to[i] == r;
    assert db.nextDelivery + i in db'.deliveries;
    assert db'.deliveries[db.nextDelivery + i] == NewDelivery(db.nextEvent, to[i], now);
  }

  lemma ServedIsChosen(db: Db, db': Db, e: Event, now: Time, d: nat)
    requires WellFormed(db) && Effect(db, db', e, now)
    requires d in db'.deliveries && db'.deliveries[d].eventId == db.nextEvent
    ensures db'.deliveries[d].recipientId in Chosen(db, e.audience, e.key)
  {
    EffectKeepsPairs(db, db', e, now);
    if d !in db.deliveries {
      NewDeliveryAt(db, db', e, now, d);
    }
  }

  lemma AllChosenServed(db: Db, db': Db, e: Event, now: Time)
    requires WellFormed(db) && Effect(db, db', e, now) && db.nextEvent < db'.nextEvent
    ensures forall r :: r in Chosen(db, e.audience, e.key) <==> Serves(db'.deliveries, db.nextEvent, r)
  {
    forall r ensures r in Chosen(db, e.audience, e.key) <==> Serves(db'.deliveries, db.nextEvent, r) {
      if r in Chosen(db, e.audience, e.key) {
        ChosenIsServed(db, db', e, now, r);
      }
      if Serves(db'.deliveries, db.nextEvent, r) {
        var d :| d in db'.deliveries && db'.deliveries[d].eventId == db.nextEvent && db'.deliveries[d].recipientId == r;
        ServedIsChosen(db, db', e, now, d);
      }
    }
  }

  // ---- when an accepted event is new --------------------------------------------------

  ghost predicate KeyTaken(db: Db, dedupKey: string) {
    exists id :: id in db.events && db.events[id].dedupKey == dedupKey
  }

  /** An alert inserts an event, and deliveries to the chosen recipients, if and only if no row holds its dedup
      key; otherwise the transaction is accepted, changes the state row, and notifies nobody. */
  lemma AlertNotifiesIffKeyIsFree(db: Db, e: Event, now: Time)
    requires WellFormed(db)
    requires var v := VerdictOf(db, e, now); v.OneShot? || v.Trigger? || v.Repeat?
    ensures var (db', id) := EnqueueTx(db, e, now);
            if KeyTaken(db, KeyFor(VerdictOf(db, e, now), e, now))
            then db'.events == db.events && db'.deliveries == db.deliveries && id in db.events
            else id == db.nextEvent && db'.nextEvent == id + 1 && Inserted(db, db', e, now)
  {
    if KeyTaken(db, KeyFor(VerdictOf(db, e, now), e, now)) {
      TakenKeyAddsNothing(db, e, now);
    } else {
      FreeKeyInserts(db, e, now);
    }
  }

  lemma TakenKeyAddsNothing(db: Db, e: Event, now: Time)
    requires WellFormed(db) && KeyTaken(db, KeyFor(VerdictOf(db, e, now), e, now))
    requires var v := VerdictOf(db, e, now); v.OneShot? || v.Trigger? || v.Repeat?
    ensures var (db', id) := EnqueueTx(db, e, now);
            db'.events == db.events && db'.deliveries == db.deliveries && id in db.events
  {
    var key := KeyFor(VerdictOf(db, e, now), e, now);
    var ruled := WithRule(db, e);
    var severity := RuleOf(db, e).severity;
    CreateEffect(ruled, e, severity, key, now, None);
    assert CreateEvent(ruled, e, severity, key, now, None).0 == ruled;
  }

  lemma FreeKeyInserts(db: Db, e: Event, now: Time)
    requires WellFormed(db) && !KeyTaken(db, KeyFor(VerdictOf(db, e, now), e, now))
    requires var v := VerdictOf(db, e, now); v.OneShot? || v.Trigger? || v.Repeat?
    ensures var (db', id) := EnqueueTx(db, e, now);
            id == db.nextEvent && db'.nextEvent == id + 1 && Inserted(db, db', e, now)
  {
    CreateEffect(WithRule(db, e), e, RuleOf(db, e).severity, KeyFor(VerdictOf(db, e, now), e, now), now, None);
    EnqueueEffect(db, e, now);
  }

  // ---- repeats ------------------------------------------------------------------------

  /** A dedup key as callers write it: without a repeat stamp of its own. */
  ghost predicate Plain(key: string) {
    forall d: string, t: Time :: key != Stamped(d, "repeat", t)
  }

  /** Keys tell scopes apart: plain, and each used by the events of one scope. */
  ghost predicate Specific(e: Event, owner: string -> Scope) {
    Plain(e.dedupKey) && (!e.instant ==> owner(e.dedupKey) == ScopeOf(e))
  }

  ghost predicate AllSpecific(actions: seq<Action>, owner: string -> Scope) {
    forall i :: 0 <= i < |actions| && actions[i].Enqueue? ==> Specific(actions[i].event, owner)
  }

  /** Every repeat row of a scope is stamped no later than the scope's last notification. */
  ghost predicate StampsCovered(db: Db, owner: string -> Scope) {
    forall id, d: string, t: Time :: id in db.events && db.events[id].dedupKey == Stamped(d, "repeat", t) ==>
      Covers(StateOf(db, owner(d)), t)
  }

  predicate Covers(state: State, t: Time) {
    state.lastNotifiedAt.Some? && t <= state.lastNotifiedAt.value
  }

  lemma StampParts(d: string, tag: string, t: Time)
    ensures Stamped(d, tag, t) == (d + ":" + tag) + ":" + Decimal.Show(t)
  {
  }

  lemma RecoveryStampIsNoRepeat(d: string, t: Time, d': string, t': Time)
    ensures Stamped(d, "recovery", t) != Stamped(d', "repeat", t')
  {
    var p, q := d + ":" + "recovery", d' + ":" + "repeat";
    StampParts(d, "recovery", t);
    StampParts(d', "repeat", t');
    assert p[|p| - 1] == 'y' && q[|q| - 1] == 't';
    if p + ":" + Decimal.Show(t) == q + ":" + Decimal.Show(t') {
      Decimal.StampSplits(p, q, t, t');
    }
  }

  lemma RepeatStampsSplit(d: string, t: Time, d': string, t': Time)
    requires Stamped(d, "repeat", t) == Stamped(d', "repeat", t')
    ensures d == d' && t == t'
  {
    var p, q := d + ":" + "repeat", d' + ":" + "repeat";
    StampParts(d, "repeat", t);
    StampParts(d', "repeat", t');
    Decimal.StampSplits(p, q, t, t');
    assert d == p[..|d|] == q[..|d'|] == d';
  }

  /** The key an event is inserted under carries a repeat stamp only when it is a repeat of that very scope. */
  lemma NewStamp(v: Verdict, e: Event, now: Time, d: string, t: Time)
    requires Plain(e.dedupKey) && KeyFor(v, e, now) == Stamped(d, "repeat", t)
    ensures v.Repeat? && d == e.dedupKey && t == now
  {
    if v.Repeat? {
      RepeatStampsSplit(e.dedupKey, now, d, t);
    } else if v.Recover? {
      RecoveryStampIsNoRepeat(e.dedupKey, now, d, t);
    }
  }

  /** The last notification of a scope never goes back. */
  lemma CoverageLasts(db: Db, e: Event, now: Time, clock: Time, scope: Scope, t: Time)
    requires Covers(StateOf(db, scope), t) && clock <= now
    requires forall sc :: StateOf(db, sc).lastNotifiedAt.Some? ==> StateOf(db, sc).lastNotifiedAt.value <= clock
    ensures Covers(StateOf(EnqueueTx(db, e, now).0, scope), t)
  {
    EnqueueState(db, e, now, scope);
    assert StateOf(db, scope).lastNotifiedAt.value <= clock;
  }

  ghost predicate NotifiedBy(db: Db, clock: Time) {
    forall sc :: StateOf(db, sc).lastNotifiedAt.Some? ==> StateOf(db, sc).lastNotifiedAt.value <= clock
  }

  lemma NotifiedStep(db: Db, e: Event, now: Time, clock: Time)
    requires NotifiedBy(db, clock) && clock <= now
    ensures NotifiedBy(EnqueueTx(db, e, now).0, now)
  {
    var db' := EnqueueTx(db, e, now).0;
    forall sc | StateOf(db', sc).lastNotifiedAt.Some? ensures StateOf(db', sc).lastNotifiedAt.value <= now {
      EnqueueState(db, e, now, sc);
      assert StateOf(db, sc).lastNotifiedAt.Some? ==> StateOf(db, sc).lastNotifiedAt.value <= clock;
    }
  }

  /** What was covered stays covered. */
  ghost predicate CoverStays(db: Db, db': Db) {
    forall scope, t :: Covers(StateOf(db, scope), t) ==> Covers(StateOf(db', scope), t)
  }

  /** A repeat's own row is covered by the notification it makes. */
  lemma RepeatStamp(db: Db, e: Event, now: Time)
    requires VerdictOf(db, e, now).Repeat?
    ensures Covers(StateOf(EnqueueTx(db, e, now).0, ScopeOf(e)), now)
  {
    EnqueueState(db, e, now, ScopeOf(e));
  }

  lemma StampStep(db: Db, db': Db, e: Event, now: Time, owner: string -> Scope, id: nat, d: string, t: Time)
    requires StampsCovered(db, owner) && CoverStays(db, db') && Specific(e, owner) && Effect(db, db', e, now)
    requires VerdictOf(db, e, now).Repeat? ==> Covers(StateOf(db', ScopeOf(e)), now)
    requires id in db'.events && db'.events[id].dedupKey == Stamped(d, "repeat", t)
    ensures Covers(StateOf(db', owner(d)), t)
  {
    EffectKeepsNames(db, db', e, now);
    if id in db.events {
      assert Covers(StateOf(db, owner(d)), t);
    } else {
      NewStamp(VerdictOf(db, e, now), e, now, d, t);
    }
  }

  lemma StampsStep(db: Db, e: Event, now: Time, clock: Time, owner: string -> Scope)
    requires WellFormed(db) && StampsCovered(db, owner) && NotifiedBy(db, clock) && clock <= now && Specific(e, owner)
    ensures StampsCovered(EnqueueTx(db, e, now).0, owner)
  {
    var db' := EnqueueTx(db, e, now).0;
    EnqueueEffect(db, e, now);
    if VerdictOf(db, e, now).Repeat? {
      RepeatStamp(db, e, now);
    }
    forall scope, t | Covers(StateOf(db, scope), t) ensures Covers(StateOf(db', scope), t) {
      CoverageLasts(db, e, now, clock, scope, t);
    }
    forall id, d: string, t: Time | id in db'.events && db'.events[id].dedupKey == Stamped(d, "repeat", t)
      ensures Covers(StateOf(db', owner(d)), t)
    {
      StampStep(db, db', e, now, owner, id, d, t);
    }
  }

  ghost predicate Stamps(s: Sys, owner: string -> Scope) {
    StampsCovered(s.db, owner) && NotifiedBy(s.db, s.clock)
  }

  lemma StampsCarry(s: Sys, s': Sys, owner: string -> Scope)
    requires Stamps(s, owner) && s'.db.states == s.db.states && s'.clock == s.clock && SameNames(s.db.events, s'.db.events)
    ensures Stamps(s', owner)
  {
    assert forall sc :: StateOf(s'.db, sc) == StateOf(s.db, sc);
  }

  lemma OtherStamps(s: Sys, a: Action, owner: string -> Scope)
    requires Stamps(s, owner) && !a.Enqueue?
    ensures Stamps(Step(s, a), owner)
  {
    OtherStepsKeepStates(s, a);
    OtherStepsKeepNames(s, a);
    StampsCarry(s, Step(s, a), owner);
  }

  lemma {:induction false} RunStamps(s: Sys, actions: seq<Action>, owner: string -> Scope)
    requires Good(s) && Stamps(s, owner) && Monotone(s, actions) && AllSpecific(actions, owner)
    ensures Stamps(Run(s, actions), owner)
  {
    if actions != [] {
      var init, a := actions[..|actions| - 1], actions[|actions| - 1];
      RunStamps(s, init, owner);
      RunIsGood(s, init);
      var r := Run(s, init);
      if !a.Enqueue? {
        OtherStamps(r, a, owner);
      } else if ValidEvent(a.event) {
        StampsStep(r.db, a.event, a.now, r.clock, owner);
        NotifiedStep(r.db, a.event, a.now, r.clock);
      } else {
        assert forall sc :: StateOf(r.db, sc).lastNotifiedAt.Some? ==> StateOf(r.db, sc).lastNotifiedAt.value <= r.clock;
      }
    }
  }

  /** Under a non-decreasing clock and scope-specific keys every accepted repeat inserts a fresh event row,
      with its deliveries, and never meets a row that is already there. */
  lemma RepeatsAreFresh(db: Db, clock: Time, actions: seq<Action>, owner: string -> Scope, e: Event, now: Time)
    requires Empty(db) && Monotone(Start0(db, clock), actions) && AllSpecific(actions, owner) && Specific(e, owner)
    requires var s := Run(Start0(db, clock), actions); s.clock <= now && VerdictOf(s.db, e, now).Repeat?
    ensures var s := Run(Start0(db, clock), actions);
            var (db', id) := EnqueueTx(s.db, e, now);
            id == s.db.nextEvent && Inserted(s.db, db', e, now)
  {
    var s := Run(Start0(db, clock), actions);
    StartIsGood(db, clock);
    RunIsGood(Start0(db, clock), actions);
    RunStamps(Start0(db, clock), actions, owner);
    EveryScopeHasShape(db, clock, actions, ScopeOf(e));
    var state := StateOf(s.db, ScopeOf(e));
    assert state.lastNotifiedAt.value < now;
    assert !Covers(StateOf(s.db, owner(e.dedupKey)), now);
    assert RepeatKey(e, now) == Stamped(e.dedupKey, "repeat", now);
    AlertNotifiesIffKeyIsFree(s.db, e, now);
  }

  // ---- triggers -----------------------------------------------------------------------

  /** Once a scope has accepted a step, a row with its dedup key exists for good. */
  ghost predicate KeyKept(s: Sys, scope: Scope, key: string) {
    Of(s.accepted, scope) != [] ==> KeyTaken(s.db, key)
  }

  ghost predicate KeyIs(actions: seq<Action>, scope: Scope, key: string) {
    forall i :: 0 <= i < |actions| && actions[i].Enqueue? && !actions[i].event.instant && ScopeOf(actions[i].event) == scope ==>
      actions[i].event.dedupKey == key
  }

  lemma KeysStay(db: Db, db': Db, e: Event, now: Time, key: string)
    requires Effect(db, db', e, now) && KeyTaken(db, key)
    ensures KeyTaken(db', key)
  {
    EffectKeepsNames(db, db', e, now);
    var id :| id in db.events && db.events[id].dedupKey == key;
    assert db'.events[id].dedupKey == key;
  }

  lemma EnqueueKeyKept(s: Sys, e: Event, now: Time, scope: Scope, key: string)
    requires Good(s) && KeyKept(s, scope, key) && Shaped(s, scope) && ValidEvent(e)
    requires !e.instant && ScopeOf(e) == scope ==> e.dedupKey == key
    ensures KeyKept(EnqueueStep(s, e, now), scope, key)
  {
    var v := VerdictOf(s.db, e, now);
    var db' := EnqueueTx(s.db, e, now).0;
    EnqueueEffect(s.db, e, now);
    OfGrows(s.accepted, Acceptance(ScopeOf(e), v, now), scope);
    if Of(s.accepted, scope) != [] {
      KeysStay(s.db, db', e, now, key);
    } else if ScopeOf(e) == scope && Accepts(v) {
      assert v.Trigger?;
      EnqueueReports(s.db, e, now);
    }
  }

  lemma NameStays(db: Db, db': Db, key: string)
    requires SameNames(db.events, db'.events) && KeyTaken(db, key)
    ensures KeyTaken(db', key)
  {
    var id :| id in db.events && db.events[id].dedupKey == key;
    assert db'.events[id].dedupKey == key;
  }

  lemma OtherKeyKept(s: Sys, a: Action, scope: Scope, key: string)
    requires KeyKept(s, scope, key) && !a.Enqueue?
    ensures KeyKept(Step(s, a), scope, key)
  {
    OtherStepsKeepStates(s, a);
    OtherStepsKeepNames(s, a);
    if KeyTaken(s.db, key) {
      NameStays(s.db, Step(s, a).db, key);
    }
  }

  lemma {:induction false} RunKeyKept(s: Sys, actions: seq<Action>, scope: Scope, key: string)
    requires Good(s) && KeyKept(s, scope, key) && Shaped(s, scope) && Monotone(s, actions) && KeyIs(actions, scope, key)
    ensures KeyKept(Run(s, actions), scope, key)
  {
    if actions != [] {
      var init, a := actions[..|actions| - 1], actions[|actions| - 1];
      RunKeyKept(s, init, scope, key);
      RunIsGood(s, init);
      RunShaped(s, init, scope);
      if !a.Enqueue? {
        OtherKeyKept(Run(s, init), a, scope, key);
      } else if ValidEvent(a.event) {
        EnqueueKeyKept(Run(s, init), a.event, a.now, scope, key);
      }
    }
  }

  /** A trigger after a recovery reuses the scope's dedup key, whose row is still there: it is accepted,
      makes the scope active again, and adds no event and no delivery. */
  lemma RetriggerNotifiesNobody(db: Db, clock: Time, actions: seq<Action>, scope: Scope, e: Event, now: Time)
    requires Empty(db) && Monotone(Start0(db, clock), actions) && KeyIs(actions, scope, e.dedupKey) && ScopeOf(e) == scope
    requires var s := Run(Start0(db, clock), actions);
             VerdictOf(s.db, e, now).Trigger? && Of(s.accepted, scope) != []
    ensures var s := Run(Start0(db, clock), actions);
            var db' := EnqueueTx(s.db, e, now).0;
            StateOf(db', scope).active && db'.events == s.db.events && db'.deliveries == s.db.deliveries
  {
    var s := Run(Start0(db, clock), actions);
    StartIsGood(db, clock);
    RunIsGood(Start0(db, clock), actions);
    RunKeyKept(Start0(db, clock), actions, scope, e.dedupKey);
    AlertNotifiesIffKeyIsFree(s.db, e, now);
    EnqueueState(s.db, e, now, scope);
  }

  // ---- first triggers -----------------------------------------------------------------

  /** A dedup key of no stamped form. */
  ghost predicate Unstamped(key: string) {
    forall d: string, t: Time :: key != Stamped(d, "repeat", t) && key != Stamped(d, "recovery", t)
  }

  /** Only the scope's own alerts use its key. */
  ghost predicate KeyOnlyOf(actions: seq<Action>, scope: Scope, key: string) {
    forall i :: 0 <= i < |actions| && actions[i].Enqueue? && actions[i].event.dedupKey == key ==>
      !actions[i].event.instant && ScopeOf(actions[i].event) == scope
  }

  /** The key is taken only once the scope has accepted a step. */
  ghost predicate TakenMeansAccepted(s: Sys, scope: Scope, key: string) {
    KeyTaken(s.db, key) ==> Of(s.accepted, scope) != []
  }

  /** A transaction that takes an unstamped key does so for an alert that carries it. */
  lemma NewKeyIsOwn(db: Db, db': Db, e: Event, now: Time, key: string)
    requires Effect(db, db', e, now) && Unstamped(key) && KeyTaken(db', key) && !KeyTaken(db, key)
    ensures var v := VerdictOf(db, e, now); e.dedupKey == key && (v.OneShot? || v.Trigger?)
  {
    EffectKeepsNames(db, db', e, now);
    var id :| id in db'.events && db'.events[id].dedupKey == key;
    assert id !in db.events;
    assert KeyFor(VerdictOf(db, e, now), e, now) == key;
    assert Inserts(VerdictOf(db, e, now));
  }

  lemma TakenStep(s: Sys, s': Sys, e: Event, now: Time, v: Verdict, scope: Scope, key: string)
    requires TakenMeansAccepted(s, scope, key) && Unstamped(key) && Effect(s.db, s'.db, e, now) && v == VerdictOf(s.db, e, now)
    requires s'.accepted == if Accepts(v) then s.accepted + [Acceptance(ScopeOf(e), v, now)] else s.accepted
    requires e.dedupKey == key ==> !e.instant && ScopeOf(e) == scope
    ensures TakenMeansAccepted(s', scope, key)
  {
    OfGrows(s.accepted, Acceptance(ScopeOf(e), v, now), scope);
    if KeyTaken(s'.db, key) && !KeyTaken(s.db, key) {
      NewKeyIsOwn(s.db, s'.db, e, now, key);
    }
  }

  lemma EnqueueTaken(s: Sys, e: Event, now: Time, scope: Scope, key: string)
    requires Good(s) && TakenMeansAccepted(s, scope, key) && Unstamped(key) && ValidEvent(e)
    requires e.dedupKey == key ==> !e.instant && ScopeOf(e) == scope
    ensures TakenMeansAccepted(EnqueueStep(s, e, now), scope, key)
  {
    EnqueueEffect(s.db, e, now);
    TakenStep(s, EnqueueStep(s, e, now), e, now, VerdictOf(s.db, e, now), scope, key);
  }

  lemma OtherTaken(s: Sys, a: Action, scope: Scope, key: string)
    requires TakenMeansAccepted(s, scope, key) && !a.Enqueue?
    ensures TakenMeansAccepted(Step(s, a), scope, key)
  {
    OtherStepsKeepStates(s, a);
    OtherStepsKeepNames(s, a);
    if KeyTaken(Step(s, a).db, key) {
      var id :| id in Step(s, a).db.events && Step(s, a).db.events[id].dedupKey == key;
      assert s.db.events[id].dedupKey == key;
    }
  }

  lemma {:induction false} RunTaken(s: Sys, actions: seq<Action>, scope: Scope, key: string)
    requires Good(s) && TakenMeansAccepted(s, scope, key) && Unstamped(key) && KeyOnlyOf(actions, scope, key)
    ensures TakenMeansAccepted(Run(s, actions), scope, key)
  {
    if actions != [] {
      var init, a := actions[..|actions| - 1], actions[|actions| - 1];
      RunTaken(s, init, scope, key);
      RunIsGood(s, init);
      if !a.Enqueue? {
        OtherTaken(Run(s, init), a, scope, key);
      } else if ValidEvent(a.event) {
        EnqueueTaken(Run(s, init), a.event, a.now, scope, key);
      }
    }
  }

  /** When a scope's alerts all carry one key that nothing else carries, an accepted trigger notifies if and only if it is
      the first step the scope has ever accepted: then it inserts a fresh event with its deliveries, and any later trigger
      inserts nothing. */
  lemma TriggerNotifiesIffFirst(db: Db, clock: Time, actions: seq<Action>, scope: Scope, e: Event, now: Time)
    requires Empty(db) && Monotone(Start0(db, clock), actions) && KeyIs(actions, scope, e.dedupKey) && ScopeOf(e) == scope
    requires KeyOnlyOf(actions, scope, e.dedupKey) && Unstamped(e.dedupKey)
    requires VerdictOf(Run(Start0(db, clock), actions).db, e, now).Trigger?
    ensures var s := Run(Start0(db, clock), actions);
            var (db', id) := EnqueueTx(s.db, e, now);
            if Of(s.accepted, scope) == [] then id == s.db.nextEvent && Inserted(s.db, db', e, now)
            else db'.events == s.db.events && db'.deliveries == s.db.deliveries
  {
    var s := Run(Start0(db, clock), actions);
    if Of(s.accepted, scope) == [] {
      StartIsGood(db, clock);
      RunIsGood(Start0(db, clock), actions);
      RunTaken(Start0(db, clock), actions, scope, e.dedupKey);
      AlertNotifiesIffKeyIsFree(s.db, e, now);
    } else {
      RetriggerNotifiesNobody(db, clock, actions, scope, e, now);
    }
  }

  // ---- recoveries ---------------------------------------------------------------------

  /** A recovery that is to be sent inserts its own event, and deliveries to the chosen recipients, if and only if no row
      holds its stamped key. */
  lemma RecoveryNotifiesIffKeyIsFree(db: Db, e: Event, now: Time)
    requires WellFormed(db) && VerdictOf(db, e, now).Recover? && RuleOf(db, e).sendRecovery
    ensures var (db', id) := EnqueueTx(db, e, now);
            if KeyTaken(db, RecoveryKey(e, now))
            then db'.nextEvent == db.nextEvent && db'.events.Keys == db.events.Keys && db'.deliveries.Keys == db.deliveries.Keys
            else id == db.nextEvent && Inserted(db, db', e, now)
  {
    EnqueueEffect(db, e, now);
    RecoveryInsertion(db, e, now);
    ClearedInsertion(db, ResolveAll(WithRule(db, e), e, now), e, now);
  }

  /** What CreateEvent does after the resolution. */
  lemma ClearedInsertion(db: Db, cleared: Db, e: Event, now: Time)
    requires WellFormed(db) && cleared == ResolveAll(WithRule(db, e), e, now)
    ensures var (made, id) := CreateEvent(cleared, e, "recovery", RecoveryKey(e, now), now, Some(now));
            if KeyTaken(db, RecoveryKey(e, now))
            then made.nextEvent == db.nextEvent && made.events.Keys == db.events.Keys && made.deliveries.Keys == db.deliveries.Keys
            else id == db.nextEvent && made.nextEvent == id + 1
  {
    ResolveEffect(WithRule(db, e), e, now);
    CreateEffect(cleared, e, "recovery", RecoveryKey(e, now), now, Some(now));
    SameKeysTaken(db, cleared, e, now, RecoveryKey(e, now));
    assert cleared.events.Keys == db.events.Keys && cleared.deliveries.Keys == db.deliveries.Keys;
    if KeyTaken(cleared, RecoveryKey(e, now)) {
      assert CreateEvent(cleared, e, "recovery", RecoveryKey(e, now), now, Some(now)).0 == cleared;
    }
  }

  lemma SameKeysTaken(db: Db, cleared: Db, e: Event, now: Time, key: string)
    requires cleared == ResolveAll(WithRule(db, e), e, now)
    ensures KeyTaken(cleared, key) <==> KeyTaken(db, key)
  {
    forall id | id in db.events ensures id in cleared.events && cleared.events[id].dedupKey == db.events[id].dedupKey {}
  }

  lemma RecoveryInsertion(db: Db, e: Event, now: Time)
    requires VerdictOf(db, e, now).Recover? && RuleOf(db, e).sendRecovery
    ensures var (db', id) := EnqueueTx(db, e, now);
            var (made, mid) := CreateEvent(ResolveAll(WithRule(db, e), e, now), e, "recovery", RecoveryKey(e, now), now, Some(now));
            db'.events == made.events && db'.deliveries == made.deliveries && db'.nextEvent == made.nextEvent && id == mid
  {
  }

  /** No key as callers write it carries a recovery stamp. */
  ghost predicate NoRecoveryStamps(actions: seq<Action>) {
    forall i, d: string, t: Time :: 0 <= i < |actions| && actions[i].Enqueue? ==>
      actions[i].event.dedupKey != Stamped(d, "recovery", t)
  }

  /** Every recovery row is stamped no later than the last transaction. */
  ghost predicate RecoveriesBy(db: Db, clock: Time) {
    forall id, d: string, t: Time :: id in db.events && db.events[id].dedupKey == Stamped(d, "recovery", t) ==> t <= clock
  }

  lemma NewRecoveryStamp(v: Verdict, e: Event, now: Time, d: string, t: Time)
    requires e.dedupKey != Stamped(d, "recovery", t) && KeyFor(v, e, now) == Stamped(d, "recovery", t)
    ensures t == now
  {
    if v.Repeat? {
      RecoveryStampIsNoRepeat(d, t, e.dedupKey, now);
    } else {
      StampParts(d, "recovery", t);
      StampParts(e.dedupKey, "recovery", now);
      Decimal.StampSplits(d + ":" + "recovery", e.dedupKey + ":" + "recovery", t, now);
    }
  }

  lemma RecoveriesStep(db: Db, db': Db, e: Event, now: Time, clock: Time)
    requires Effect(db, db', e, now) && RecoveriesBy(db, clock) && clock <= now
    requires forall d: string, t: Time :: e.dedupKey != Stamped(d, "recovery", t)
    ensures RecoveriesBy(db', now)
  {
    forall id, d: string, t: Time | id in db'.events && db'.events[id].dedupKey == Stamped(d, "recovery", t) ensures t <= now {
      if id in db.events {
        assert EventStays(db.events[id], db'.events[id], e, now);
      } else {
        NewRecoveryStamp(VerdictOf(db, e, now), e, now, d, t);
      }
    }
  }

  lemma NamesRecoveries(db: Db, db': Db, clock: Time)
    requires RecoveriesBy(db, clock) && SameNames(db.events, db'.events)
    ensures RecoveriesBy(db', clock)
  {
  }

  lemma {:induction false} RunRecoveries(s: Sys, actions: seq<Action>)
    requires Good(s) && RecoveriesBy(s.db, s.clock) && EventStatuses.Strict(s, actions) && NoRecoveryStamps(actions)
    ensures RecoveriesBy(Run(s, actions).db, Run(s, actions).clock)
  {
    if actions != [] {
      var init, a := actions[..|actions| - 1], actions[|actions| - 1];
      RunRecoveries(s, init);
      RunIsGood(s, init);
      var r := Run(s, init);
      if !a.Enqueue? {
        OtherStepsKeepStates(r, a);
        OtherStepsKeepNames(r, a);
        NamesRecoveries(r.db, Step(r, a).db, r.clock);
      } else if ValidEvent(a.event) {
        EnqueueEffect(r.db, a.event, a.now);
        RecoveriesStep(r.db, EnqueueTx(r.db, a.event, a.now).0, a.event, a.now, r.clock);
      }
    }
  }

  /** Under strictly increasing transaction times every accepted recovery that is to be sent inserts a fresh event. */
  lemma RecoveriesAreFresh(db: Db, clock: Time, actions: seq<Action>, e: Event, now: Time)
    requires Empty(db) && EventStatuses.Strict(Start0(db, clock), actions) && NoRecoveryStamps(actions)
    requires var s := Run(Start0(db, clock), actions);
             s.clock < now && VerdictOf(s.db, e, now).Recover? && RuleOf(s.db, e).sendRecovery
    ensures var s := Run(Start0(db, clock), actions);
            var (db', id) := EnqueueTx(s.db, e, now);
            id == s.db.nextEvent && Inserted(s.db, db', e, now)
  {
    var s := Run(Start0(db, clock), actions);
    StartIsGood(db, clock);
    RunIsGood(Start0(db, clock), actions);
    RunRecoveries(Start0(db, clock), actions);
    assert RecoveryKey(e, now) == Stamped(e.dedupKey, "recovery", now);
    assert !KeyTaken(s.db, RecoveryKey(e, now));
    RecoveryNotifiesIffKeyIsFree(s.db, e, now);
  }

  // ---- at fixed times ------------------------------------------------------------------

  /** The recovery of an alert. */
  function RestoredBy(e: Event): Event {
    e.(recovery := true)
  }

  /** A stateful alert whose key has no rule yet, so that the default rule applies. */
  predicate Unruled(db: Db, e: Event) {
    ValidEvent(e) && !e.instant && !e.recovery && e.key !in db.rules
  }

  lemma RunMore(s: Sys, actions: seq<Action>, a: Action)
    ensures Run(s, actions + [a]) == Step(Run(s, actions), a)
  {
    assert (actions + [a])[..|actions|] == actions;
  }

  lemma FirstAlert(s: Sys, e: Event)
    requires Unruled(s.db, e) && StateOf(s.db, ScopeOf(e)) == BLANK_STATE && s.accepted == []
    ensures var s1 := EnqueueStep(s, e, 1);
            && s1.clock == 1 && s1.accepted == [Acceptance(ScopeOf(e), Trigger, 1)]
            && StateOf(s1.db, ScopeOf(e)).active && RuleOf(s1.db, e) == DefaultRule(e.severity)
            && e.key in s1.db.rules
  {
    EnqueueState(s.db, e, 1, ScopeOf(e));
    EnqueueRules(s.db, e, 1);
  }

  lemma ThenRecovery(s: Sys, e: Event)
    requires ValidEvent(e) && !e.instant && !e.recovery && StateOf(s.db, ScopeOf(e)).active
    requires e.key in s.db.rules && s.db.rules[e.key] == DefaultRule(e.severity)
    ensures var s2 := EnqueueStep(s, RestoredBy(e), 2);
            && s2.accepted == s.accepted + [Acceptance(ScopeOf(e), Recover, 2)]
            && VerdictOf(s2.db, e, 601 * SECOND).Trigger?
  {
    EnqueueState(s.db, RestoredBy(e), 2, ScopeOf(e));
    EnqueueRules(s.db, RestoredBy(e), 2);
  }

  /** The alert, and a nanosecond later its recovery. */
  function AlertAndRecovery(e: Event): seq<Action> {
    [Enqueue(e, 1), Enqueue(RestoredBy(e), 2)]
  }

  lemma TwoSteps(db: Db, e: Event)
    ensures Run(Start0(db, 0), [Enqueue(e, 1)]) == EnqueueStep(Start0(db, 0), e, 1)
    ensures Run(Start0(db, 0), AlertAndRecovery(e)) == EnqueueStep(EnqueueStep(Start0(db, 0), e, 1), RestoredBy(e), 2)
  {
    RunMore(Start0(db, 0), [], Enqueue(e, 1));
    RunMore(Start0(db, 0), [Enqueue(e, 1)], Enqueue(RestoredBy(e), 2));
    assert [] + [Enqueue(e, 1)] == [Enqueue(e, 1)];
    assert [Enqueue(e, 1)] + [Enqueue(RestoredBy(e), 2)] == AlertAndRecovery(e);
  }

  lemma TwoTimes(s: Sys, e: Event)
    requires s.clock == 0 && Run(s, [Enqueue(e, 1)]).clock == 1
    ensures Monotone(s, AlertAndRecovery(e))
  {
    var first, actions := [Enqueue(e, 1)], AlertAndRecovery(e);
    assert first[..0] == [] && actions[..1] == first;
    assert Monotone(s, []) && Run(s, []) == s;
    assert Monotone(s, first);
  }

  lemma TwoStepsEnd(db: Db, e: Event, s1: Sys)
    requires Empty(db) && Unruled(db, e) && s1 == EnqueueStep(Start0(db, 0), e, 1)
    ensures var s2 := EnqueueStep(s1, RestoredBy(e), 2);
            s1.clock == 1 && VerdictOf(s2.db, e, 601 * SECOND).Trigger? && Of(s2.accepted, ScopeOf(e)) != []
  {
    FirstAlert(Start0(db, 0), e);
    ThenRecovery(s1, e);
    OfGrows(s1.accepted, Acceptance(ScopeOf(e), Recover, 2), ScopeOf(e));
  }

  /** A trigger that is accepted and notifies nobody. */
  ghost predicate Silent(s: Sys, e: Event, now: Time) {
    var db' := EnqueueTx(s.db, e, now).0;
    && VerdictOf(s.db, e, now).Trigger?
    && StateOf(db', ScopeOf(e)).active && db'.events == s.db.events && db'.deliveries == s.db.deliveries
  }

  lemma SilentAfter(db: Db, actions: seq<Action>, s: Sys, e: Event, now: Time)
    requires Empty(db) && Monotone(Start0(db, 0), actions) && KeyIs(actions, ScopeOf(e), e.dedupKey)
    requires s == Run(Start0(db, 0), actions) && VerdictOf(s.db, e, now).Trigger? && Of(s.accepted, ScopeOf(e)) != []
    ensures Silent(s, e, now)
  {
    RetriggerNotifiesNobody(db, 0, actions, ScopeOf(e), e, now);
  }

  lemma TwoKeys(e: Event)
    ensures KeyIs(AlertAndRecovery(e), ScopeOf(e), e.dedupKey)
  {
  }

  /** Any alert under the default rule, its recovery a nanosecond later, and the alert again 601 seconds after, past the
      default cooldown. */
  lemma RetriggerIsSilent(db: Db, e: Event)
    requires Empty(db) && Unruled(db, e)
    ensures Silent(Run(Start0(db, 0), AlertAndRecovery(e)), e, 601 * SECOND)
  {
    var s1 := EnqueueStep(Start0(db, 0), e, 1);
    TwoSteps(db, e);
    TwoStepsEnd(db, e, s1);
    TwoTimes(Start0(db, 0), e);
    TwoKeys(e);
    SilentAfter(db, AlertAndRecovery(e), EnqueueStep(s1, RestoredBy(e), 2), e, 601 * SECOND);
  }

  /** For instance on tables that hold nothing but one enabled recipient. */
  lemma RetriggerExample()
    ensures var db := Db(map[], map[], map[], map[], [Recipient(1, true, true, true, true)], {}, 3, 1, 1);
            var e := Event("backup.late", "error", "backup.late:web", "", false, "web", false);
            Silent(Run(Start0(db, 0), AlertAndRecovery(e)), e, 601 * SECOND)
  {
    RetriggerIsSilent(Db(map[], map[], map[], map[], [Recipient(1, true, true, true, true)], {}, 3, 1, 1),
                      Event("backup.late", "error", "backup.late:web", "", false, "web", false));
  }
}
