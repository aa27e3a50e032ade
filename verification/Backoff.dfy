/** How far apart the sends of one delivery are, in a run without restarts. */
module Backoff {
  import opened Common
  import opened Store
  import opened Alerts
  import opened Worker
  import opened Lifecycle

  /** The seconds after which a delivery that was sent n times without success is due again. */
  function Delay(n: nat): int {
    if n < 12 then [0, 2, 4, 8, 16, 32, 64, 128, 256, 512, 1024, 2048][n] else 3600
  }

  /** Send number i + 1 comes at least the delay after the clock reading of send number i. */
  ghost predicate Spaced(times: seq<Time>) {
    forall i :: 0 < i < |times| ==> times[i] >= times[i - 1] + Delay(i) * SECOND
  }

  /** The next send is not due before the delay of the last one has passed. */
  ghost predicate NotBefore(times: seq<Time>, at: Option<Time>) {
    times != [] ==> at.Some? && at.value >= times[|times| - 1] + Delay(|times|) * SECOND
  }

  lemma BackoffIsDelay(n: nat)
    requires 1 <= n
    ensures Store.Backoff(n) == Delay(n) * SECOND
  {
    PowersAre();
    if 12 <= n {
      Pow2Grows(12, n);
    }
  }

  lemma PowersAre()
    ensures Pow2(1) == 2 && Pow2(2) == 4 && Pow2(3) == 8 && Pow2(4) == 16 && Pow2(5) == 32 && Pow2(6) == 64
    ensures Pow2(7) == 128 && Pow2(8) == 256 && Pow2(9) == 512 && Pow2(10) == 1024 && Pow2(11) == 2048 && Pow2(12) == 4096
  {
  }

  lemma {:induction false} Pow2Grows(i: nat, j: nat)
    requires i <= j
    ensures Pow2(i) <= Pow2(j)
  {
    if i < j {
      Pow2Grows(i, j - 1);
    }
  }

  ghost predicate Pace(s: Sys, id: nat, retry: Option<nat>)
    requires id in s.db.deliveries
  {
    var d, times := s.db.deliveries[id], Times(s.sends, id);
    && Spaced(times)
    && (d.status != Sending ==> |times| == d.attempts)
    && (d.status == Pending ==> NotBefore(times, d.nextAttemptAt))
    && (s.phase.ToClaim? && s.phase.id == id && d.status == Pending ==> NotBefore(times, Some(s.phase.now)))
    && (Unsent(s.phase, id) ==> |times| == d.attempts && NotBefore(times, Some(s.phase.now)))
    && (s.phase.ToRecord? && s.phase.id == id ==>
          |times| == d.attempts + 1 && times != [] && times[|times| - 1] == s.phase.now)
    && (retry.Some? ==>
          if d.status == Failed then d.attempts == retry.value + 1
          else if d.status == Delivered then d.attempts <= retry.value + 1
          else d.attempts <= retry.value)
  }

  ghost predicate Paced(s: Sys, retry: Option<nat>) {
    && (retry.Some? ==> s.db.retryCount == retry.value && (s.phase.ToSend? || s.phase.ToRecord? ==> s.phase.retry == retry.value))
    && forall id :: id in s.db.deliveries ==> Pace(s, id, retry)
  }

  lemma SpacedGrows(times: seq<Time>, now: Time)
    requires Spaced(times) && NotBefore(times, Some(now))
    ensures Spaced(times + [now])
  {
  }

  lemma NewPace(s: Sys, a: Action, id: nat, retry: Option<nat>)
    requires Good(s) && id !in s.db.deliveries && id in Step(s, a).db.deliveries
    ensures Pace(Step(s, a), id, retry)
  {
    StepAdds(s, a, id);
    UnknownNeverSent(s.sends, id);
  }

  lemma ReadPace(s: Sys, a: Action, id: nat, retry: Option<nat>)
    requires a.Read? && id in s.db.deliveries && Pace(s, id, retry)
    ensures id in Step(s, a).db.deliveries && Pace(Step(s, a), id, retry)
  {
  }

  lemma ClaimPace(s: Sys, id: nat, retry: Option<nat>)
    requires PhaseAgrees(s.db.deliveries, s.phase) && id in s.db.deliveries && Pace(s, id, retry)
    ensures id in ClaimStep(s).db.deliveries && Pace(ClaimStep(s), id, retry)
  {
    if s.phase.ToClaim? && s.phase.id == id {
      ClaimOwnPace(s, id, retry);
    } else {
      ClaimOtherPace(s, id, retry);
    }
  }

  lemma ClaimOwnPace(s: Sys, id: nat, retry: Option<nat>)
    requires s.phase.ToClaim? && s.phase.id == id
    requires PhaseAgrees(s.db.deliveries, s.phase) && id in s.db.deliveries && Pace(s, id, retry)
    ensures id in ClaimStep(s).db.deliveries && Pace(ClaimStep(s), id, retry)
  {
  }

  lemma ClaimOtherPace(s: Sys, id: nat, retry: Option<nat>)
    requires (s.phase.ToClaim? ==> s.phase.id != id) && id in s.db.deliveries && Pace(s, id, retry)
    ensures id in ClaimStep(s).db.deliveries && Pace(ClaimStep(s), id, retry)
  {
  }

  lemma LoadPace(s: Sys, id: nat, retry: Option<nat>)
    requires id in s.db.deliveries && Pace(s, id, retry)
    ensures LoadStep(s).db == s.db && Pace(LoadStep(s), id, retry)
  {
  }

  lemma SendOwnPace(s: Sys, ok: bool, id: nat, retry: Option<nat>)
    requires s.phase.ToSend? && s.phase.id == id
    requires PhaseAgrees(s.db.deliveries, s.phase) && id in s.db.deliveries && Pace(s, id, retry)
    ensures SendStep(s, ok).db == s.db && Pace(SendStep(s, ok), id, retry)
  {
    var times, s' := Times(s.sends, id), SendStep(s, ok);
    assert Unsent(s.phase, id) && |times| == s.db.deliveries[id].attempts && NotBefore(times, Some(s.phase.now));
    OneMoreSend(s.sends, Attempt(id, s.phase.now, ok), id);
    assert Times(s'.sends, id) == times + [s.phase.now] && s'.phase.ToRecord?;
    SpacedGrows(times, s.phase.now);
  }

  lemma SendOtherPace(s: Sys, ok: bool, id: nat, retry: Option<nat>)
    requires (s.phase.ToSend? ==> s.phase.id != id) && id in s.db.deliveries && Pace(s, id, retry)
    ensures SendStep(s, ok).db == s.db && Pace(SendStep(s, ok), id, retry)
  {
    if s.phase.ToSend? {
      OneMoreSend(s.sends, Attempt(s.phase.id, s.phase.now, ok), id);
      assert Times(SendStep(s, ok).sends, id) == Times(s.sends, id);
    }
  }

  lemma RecordPace(s: Sys, a: Action, id: nat, retry: Option<nat>)
    requires a.Record? && PhaseAgrees(s.db.deliveries, s.phase) && id in s.db.deliveries && Pace(s, id, retry)
    requires retry.Some? && s.phase.ToRecord? ==> s.phase.retry == retry.value
    ensures id in Step(s, a).db.deliveries && Pace(Step(s, a), id, retry)
  {
    if s.phase.ToRecord? && s.phase.id == id {
      RecordOwnPace(s, id, retry);
    } else {
      RecordOtherPace(s, id, retry);
    }
  }

  lemma RecordOwnPace(s: Sys, id: nat, retry: Option<nat>)
    requires s.phase.ToRecord? && s.phase.id == id
    requires PhaseAgrees(s.db.deliveries, s.phase) && id in s.db.deliveries && Pace(s, id, retry)
    requires retry.Some? ==> s.phase.retry == retry.value
    ensures id in RecordStep(s).db.deliveries && Pace(RecordStep(s), id, retry)
  {
    BackoffIsDelay(s.db.deliveries[id].attempts + 1);
  }

  lemma RecordOtherPace(s: Sys, id: nat, retry: Option<nat>)
    requires (s.phase.ToRecord? ==> s.phase.id != id) && id in s.db.deliveries && Pace(s, id, retry)
    ensures id in RecordStep(s).db.deliveries && Pace(RecordStep(s), id, retry)
  {
  }

  /** A transaction or an edit that at most cancels the row, or a step after which the worker holds no row. */
  lemma TablePace(s: Sys, s': Sys, id: nat, retry: Option<nat>)
    requires id in s.db.deliveries && id in s'.db.deliveries && Pace(s, id, retry) && s'.sends == s.sends
    requires s'.phase == s.phase || !Holding(s'.phase)
    requires var d, d' := s.db.deliveries[id], s'.db.deliveries[id];
             d' == d || (d.status == Pending && d' == d.(status := Cancelled))
    ensures Pace(s', id, retry)
  {
  }

  predicate Holding(p: Phase) {
    p.ToClaim? || p.ToLoad? || p.ToSend? || p.ToRecord?
  }

  /** Steps after which the worker holds the same row as before, or none. */
  lemma OtherPhase(s: Sys, a: Action)
    requires !a.Read? && !a.Claim? && !a.Load? && !a.Send? && !a.Record?
    ensures Step(s, a).phase == s.phase || !Holding(Step(s, a).phase)
  {
  }

  lemma OtherPace(s: Sys, a: Action, id: nat, retry: Option<nat>)
    requires Good(s) && id in s.db.deliveries && Pace(s, id, retry) && Step(s, a).restarts == s.restarts
    requires !a.Read? && !a.Claim? && !a.Load? && !a.Send? && !a.Record?
    ensures id in Step(s, a).db.deliveries && Pace(Step(s, a), id, retry)
  {
    StepSends(s, a);
    OtherPhase(s, a);
    if a.Enqueue? {
      EnqueueMoves(s, a.event, a.now, id);
    } else if !a.Start? {
      OthersKeepDeliveries(s, a);
    }
    TablePace(s, Step(s, a), id, retry);
  }

  lemma StepPaced(s: Sys, a: Action, retry: Option<nat>)
    requires Good(s) && Paced(s, retry) && Step(s, a).restarts == s.restarts
    requires retry.Some? && a.SetRetry? ==> a.count == retry.value
    ensures Paced(Step(s, a), retry)
  {
    forall id | id in Step(s, a).db.deliveries ensures Pace(Step(s, a), id, retry) {
      if id !in s.db.deliveries {
        NewPace(s, a, id, retry);
      } else if a.Read? {
        ReadPace(s, a, id, retry);
      } else if a.Claim? {
        ClaimPace(s, id, retry);
      } else if a.Load? {
        LoadPace(s, id, retry);
      } else if a.Send? && s.phase.ToSend? && s.phase.id == id {
        SendOwnPace(s, a.ok, id, retry);
      } else if a.Send? {
        SendOtherPace(s, a.ok, id, retry);
      } else if a.Record? {
        RecordPace(s, a, id, retry);
      } else {
        OtherPace(s, a, id, retry);
      }
    }
    if retry.Some? {
      StepRetry(s, a, retry);
    }
  }

  lemma StepRetry(s: Sys, a: Action, retry: Option<nat>)
    requires Good(s) && retry.Some? && s.db.retryCount == retry.value
    requires s.phase.ToSend? || s.phase.ToRecord? ==> s.phase.retry == retry.value
    requires a.SetRetry? ==> a.count == retry.value
    ensures var s' := Step(s, a);
            s'.db.retryCount == retry.value && (s'.phase.ToSend? || s'.phase.ToRecord? ==> s'.phase.retry == retry.value)
  {
    if a.Enqueue? {
      EnqueueKeepsRetry(s, a.event, a.now);
    } else {
      OtherRetry(s, a, retry.value);
    }
  }

  lemma OtherRetry(s: Sys, a: Action, retry: int)
    requires !a.Enqueue? && s.db.retryCount == retry && (a.SetRetry? ==> a.count == retry)
    requires s.phase.ToSend? || s.phase.ToRecord? ==> s.phase.retry == retry
    ensures var s' := Step(s, a); s'.db.retryCount == retry && (s'.phase.ToSend? || s'.phase.ToRecord? ==> s'.phase.retry == retry)
  {
  }

  predicate RetryIs(actions: seq<Action>, retry: Option<nat>) {
    retry.Some? ==> forall i :: 0 <= i < |actions| && actions[i].SetRetry? ==> actions[i].count == retry.value
  }

  lemma {:induction false} RunPaced(s: Sys, actions: seq<Action>, retry: Option<nat>)
    requires Good(s) && Paced(s, retry) && RetryIs(actions, retry)
    requires Run(s, actions).restarts == s.restarts
    ensures Paced(Run(s, actions), retry)
  {
    if actions != [] {
      var init := actions[..|actions| - 1];
      RestartsGrow(s, init);
      RunPaced(s, init, retry);
      RunIsGood(s, init);
      StepPaced(Run(s, init), actions[|actions| - 1], retry);
    }
  }

  lemma {:induction false} RestartsGrow(s: Sys, actions: seq<Action>)
    ensures s.restarts <= Run(s, actions).restarts
  {
    if actions != [] {
      RestartsGrow(s, actions[..|actions| - 1]);
    }
  }

  /** In every run without a restart the sends of every delivery keep the exponential distance. */
  lemma SendsAreSpaced(db: Db, clock: Time, actions: seq<Action>, id: nat)
    requires Empty(db) && Run(Start0(db, clock), actions).restarts == 0
    ensures Spaced(Times(Run(Start0(db, clock), actions).sends, id))
  {
    var s := Run(Start0(db, clock), actions);
    StartIsGood(db, clock);
    RunPaced(Start0(db, clock), actions, None);
    if id in s.db.deliveries {
      assert Pace(s, id, None);
    } else {
      RunSendsKnown(Start0(db, clock), actions, id);
    }
  }

  /** The distances add up. */
  lemma {:induction false} SpacedAddsUp(times: seq<Time>)
    requires Spaced(times) && 1 <= |times| <= 11
    ensures times[|times| - 1] - times[0] >= (Delay(|times|) - 2) * SECOND
  {
    var n := |times| - 1;
    if n > 0 {
      SpacedAddsUp(times[..n]);
    }
  }

  /** A delivery that ends failed under a fixed retry count R <= 10 was sent exactly R + 1 times,
      over at least 2^(R+1) - 2 seconds, which is two less than the delay after R + 1 sends. */
  lemma FailingTakesTime(db: Db, clock: Time, actions: seq<Action>, retry: nat, id: nat)
    requires Empty(db) && db.retryCount == retry && RetryIs(actions, Some(retry)) && retry <= 10
    requires Run(Start0(db, clock), actions).restarts == 0
    requires var s := Run(Start0(db, clock), actions); id in s.db.deliveries && s.db.deliveries[id].status == Failed
    ensures var times := Times(Run(Start0(db, clock), actions).sends, id);
            |times| == retry + 1 && times[retry] - times[0] >= (Delay(retry + 1) - 2) * SECOND
  {
    var s := Run(Start0(db, clock), actions);
    StartIsGood(db, clock);
    RunPaced(Start0(db, clock), actions, Some(retry));
    assert Pace(s, id, Some(retry));
    SpacedAddsUp(Times(s.sends, id));
  }

  // ---- what a send leaves -------------------------------------------------------------

  /** The row agrees with the sends there were, unless one is in progress or was cut short. */
  ghost predicate Outcome(s: Sys, id: nat)
    requires id in s.db.deliveries
  {
    var d, times, won := s.db.deliveries[id], Times(s.sends, id), Successes(s.sends, id);
    && (d.status == Pending ==> DueExactly(times, d.nextAttemptAt, d.eventId, s.db.events))
    && (d.status != Sending ==> (d.status == Delivered <==> 0 < won))
    && (d.status == Delivered ==> times != [] && d.deliveredAt == Some(times[|times| - 1]))
    && (d.status != Delivered ==> d.deliveredAt.None?)
    && (Unsent(s.phase, id) ==> won == 0)
    && (s.phase.ToRecord? && s.phase.id == id ==> (s.phase.ok <==> 0 < won))
  }

  /** Due when its event was created, and after a send when the delay has passed. */
  ghost predicate DueExactly(times: seq<Time>, at: Option<Time>, event: nat, events: map<nat, EventRow>) {
    if times == [] then event in events && at == Some(events[event].createdAt)
    else at == Some(times[|times| - 1] + Delay(|times|) * SECOND)
  }

  ghost predicate Outcomes(s: Sys) {
    forall id :: id in s.db.deliveries ==> Outcome(s, id)
  }

  /** Event rows stay, created when they were. */
  ghost predicate SameBirths(events: map<nat, EventRow>, events': map<nat, EventRow>) {
    forall e :: e in events ==> e in events' && events'[e].createdAt == events[e].createdAt
  }

  lemma EnqueueBirths(db: Db, db': Db, e: Event, now: Time)
    requires Effect(db, db', e, now)
    ensures SameBirths(db.events, db'.events)
  {
    forall id | id in db.events ensures id in db'.events && db'.events[id].createdAt == db.events[id].createdAt {
      assert EventStays(db.events[id], db'.events[id], e, now);
    }
  }

  lemma OtherBirths(s: Sys, a: Action)
    requires !a.Enqueue?
    ensures SameBirths(s.db.events, Step(s, a).db.events)
  {
    OnlyWriteTouchesEvents(s, a);
    if a.Write? {
      WriteBirths(s);
    }
  }

  lemma WriteBirths(s: Sys)
    ensures SameBirths(s.db.events, WriteStep(s).db.events)
  {
  }

  lemma StepBirths(s: Sys, a: Action)
    requires Good(s)
    ensures SameBirths(s.db.events, Step(s, a).db.events)
  {
    if !a.Enqueue? {
      OtherBirths(s, a);
    } else if ValidEvent(a.event) {
      EnqueueEffect(s.db, a.event, a.now);
      EnqueueBirths(s.db, EnqueueTx(s.db, a.event, a.now).0, a.event, a.now);
    }
  }

  /** A fresh row. */
  lemma NewOutcome(s: Sys, s': Sys, e: Event, now: Time, id: nat)
    requires Good(s) && Effect(s.db, s'.db, e, now) && s'.phase == s.phase && s'.sends == s.sends
    requires id !in s.db.deliveries && id in s'.db.deliveries
    ensures Outcome(s', id)
  {
    NewDeliveryAt(s.db, s'.db, e, now, id);
    UnknownNeverSent(s.sends, id);
  }

  /** A row that stays, or is cancelled, in a step that sends nothing. */
  lemma TableOutcome(s: Sys, s': Sys, id: nat)
    requires id in s.db.deliveries && id in s'.db.deliveries && Outcome(s, id) && s'.sends == s.sends
    requires s'.phase == s.phase || !Holding(s'.phase)
    requires SameBirths(s.db.events, s'.db.events)
    requires var d, d' := s.db.deliveries[id], s'.db.deliveries[id];
             d' == d || (d.status == Pending && d' == d.(status := Cancelled))
    ensures Outcome(s', id)
  {
  }

  lemma ReadOutcome(s: Sys, now: Time, id: nat)
    requires id in s.db.deliveries && Outcome(s, id)
    ensures Outcome(ReadStep(s, now), id)
  {
  }

  lemma ClaimOutcome(s: Sys, id: nat)
    requires PhaseAgrees(s.db.deliveries, s.phase) && id in s.db.deliveries && Outcome(s, id)
    ensures id in ClaimStep(s).db.deliveries && Outcome(ClaimStep(s), id)
  {
    if s.phase.ToClaim? {
      if s.phase.id == id {
        ClaimOwnOutcome(s, id);
      } else {
        LeftOutcome(s, ClaimStep(s), id);
      }
    }
  }

  lemma ClaimOwnOutcome(s: Sys, id: nat)
    requires s.phase.ToClaim? && s.phase.id == id
    requires PhaseAgrees(s.db.deliveries, s.phase) && id in s.db.deliveries && Outcome(s, id)
    ensures id in ClaimStep(s).db.deliveries && Outcome(ClaimStep(s), id)
  {
  }

  /** A row that the step leaves alone and the worker does not hold afterwards. */
  lemma LeftOutcome(s: Sys, s': Sys, id: nat)
    requires id in s.db.deliveries && Outcome(s, id) && s'.sends == s.sends && s'.db.events == s.db.events
    requires id in s'.db.deliveries && s'.db.deliveries[id] == s.db.deliveries[id]
    requires !Unsent(s'.phase, id) && !(s'.phase.ToRecord? && s'.phase.id == id)
    ensures Outcome(s', id)
  {
  }

  lemma LoadOutcome(s: Sys, id: nat)
    requires id in s.db.deliveries && Outcome(s, id)
    ensures LoadStep(s).db == s.db && Outcome(LoadStep(s), id)
  {
  }

  lemma SendOutcome(s: Sys, ok: bool, id: nat)
    requires PhaseAgrees(s.db.deliveries, s.phase) && id in s.db.deliveries && Outcome(s, id)
    ensures SendStep(s, ok).db == s.db && Outcome(SendStep(s, ok), id)
  {
    if s.phase.ToSend? {
      OneMoreSend(s.sends, Attempt(s.phase.id, s.phase.now, ok), id);
    }
  }

  lemma RecordOutcome(s: Sys, id: nat, retry: Option<nat>)
    requires PhaseAgrees(s.db.deliveries, s.phase) && id in s.db.deliveries && Outcome(s, id) && Pace(s, id, retry)
    ensures id in RecordStep(s).db.deliveries && Outcome(RecordStep(s), id)
  {
    if s.phase.ToRecord? {
      if s.phase.id == id {
        RecordOwnOutcome(s, id, retry);
      } else {
        LeftOutcome(s, RecordStep(s), id);
      }
    }
  }

  lemma RecordOwnOutcome(s: Sys, id: nat, retry: Option<nat>)
    requires s.phase.ToRecord? && s.phase.id == id
    requires PhaseAgrees(s.db.deliveries, s.phase) && id in s.db.deliveries && Outcome(s, id) && Pace(s, id, retry)
    ensures id in RecordStep(s).db.deliveries && Outcome(RecordStep(s), id)
  {
    BackoffIsDelay(s.db.deliveries[id].attempts + 1);
  }

  lemma OtherOutcome(s: Sys, a: Action, s': Sys, id: nat)
    requires Good(s) && id in s.db.deliveries && Outcome(s, id) && s' == Step(s, a) && s'.restarts == s.restarts
    requires !a.Read? && !a.Claim? && !a.Load? && !a.Send? && !a.Record?
    ensures id in s'.db.deliveries && Outcome(s', id)
  {
    StepSends(s, a);
    OtherPhase(s, a);
    StepBirths(s, a);
    if a.Enqueue? {
      EnqueueMoves(s, a.event, a.now, id);
    } else if !a.Start? {
      OthersKeepDeliveries(s, a);
    }
    TableOutcome(s, s', id);
  }

  lemma FreshOutcome(s: Sys, a: Action, id: nat)
    requires Good(s) && id !in s.db.deliveries && id in Step(s, a).db.deliveries
    ensures Outcome(Step(s, a), id)
  {
    StepAdds(s, a, id);
    EnqueueEffect(s.db, a.event, a.now);
    NewOutcome(s, Step(s, a), a.event, a.now, id);
  }

  lemma StepOutcomes(s: Sys, a: Action, retry: Option<nat>)
    requires Good(s) && Outcomes(s) && Paced(s, retry) && Step(s, a).restarts == s.restarts
    ensures Outcomes(Step(s, a))
  {
    forall id | id in Step(s, a).db.deliveries ensures Outcome(Step(s, a), id) {
      if id !in s.db.deliveries {
        FreshOutcome(s, a, id);
      } else if a.Read? {
        ReadOutcome(s, a.now, id);
      } else if a.Claim? {
        ClaimOutcome(s, id);
      } else if a.Load? {
        LoadOutcome(s, id);
      } else if a.Send? {
        SendOutcome(s, a.ok, id);
      } else if a.Record? {
        RecordOutcome(s, id, retry);
      } else {
        OtherOutcome(s, a, Step(s, a), id);
      }
    }
  }

  lemma {:induction false} RunOutcomes(s: Sys, actions: seq<Action>, retry: Option<nat>)
    requires Good(s) && Outcomes(s) && Paced(s, retry) && RetryIs(actions, retry)
    requires Run(s, actions).restarts == s.restarts
    ensures Outcomes(Run(s, actions))
  {
    if actions != [] {
      var init := actions[..|actions| - 1];
      RestartsGrow(s, init);
      RunOutcomes(s, init, retry);
      RunPaced(s, init, retry);
      RunIsGood(s, init);
      StepOutcomes(Run(s, init), actions[|actions| - 1], retry);
    }
  }

  /** In every run without a restart a delivery that waits is due exactly when its event was created, or once it was sent,
      2, 4, 8 and so on up to 2048 and then always 3600 seconds after the clock reading of its last send. One that is not
      being sent is delivered if and only if a send succeeded, and then at the clock reading of the last one. */
  lemma WaitingIsExact(db: Db, clock: Time, actions: seq<Action>, id: nat)
    requires Empty(db) && Run(Start0(db, clock), actions).restarts == 0
    requires var s := Run(Start0(db, clock), actions); id in s.db.deliveries && s.db.deliveries[id].status != Sending
    ensures var s := Run(Start0(db, clock), actions);
            var d, times := s.db.deliveries[id], Times(s.sends, id);
            && (d.status == Pending ==> DueExactly(times, d.nextAttemptAt, d.eventId, s.db.events))
            && (d.status == Delivered <==> 0 < Successes(s.sends, id))
            && (if d.status == Delivered then times != [] && d.deliveredAt == Some(times[|times| - 1]) else d.deliveredAt.None?)
  {
    StartIsGood(db, clock);
    RunOutcomes(Start0(db, clock), actions, None);
    OutcomeOf(Run(Start0(db, clock), actions), id);
  }

  lemma OutcomeOf(s: Sys, id: nat)
    requires Outcomes(s) && id in s.db.deliveries
    ensures Outcome(s, id)
  {
  }

  /** And under a fixed retry count R it has failed if and only if it was sent R + 1 times and never with success. */
  lemma FailsExactly(db: Db, clock: Time, actions: seq<Action>, retry: nat, id: nat)
    requires Empty(db) && db.retryCount == retry && RetryIs(actions, Some(retry))
    requires Run(Start0(db, clock), actions).restarts == 0
    requires var s := Run(Start0(db, clock), actions); id in s.db.deliveries && s.db.deliveries[id].status != Sending
    ensures var s := Run(Start0(db, clock), actions);
            s.db.deliveries[id].status == Failed <==> |Times(s.sends, id)| == retry + 1 && Successes(s.sends, id) == 0
  {
    StartIsGood(db, clock);
    RunPaced(Start0(db, clock), actions, Some(retry));
    RunOutcomes(Start0(db, clock), actions, Some(retry));
    var s := Run(Start0(db, clock), actions);
    assert Pace(s, id, Some(retry)) && Outcome(s, id);
  }
}
