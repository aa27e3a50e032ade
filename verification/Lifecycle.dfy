/** What happens to one delivery over a whole run: final statuses are final, and how often it is sent. */
module Lifecycle {
  import opened Common
  import opened Store
  import opened Alerts
  import opened Worker

  predicate Final(status: DeliveryStatus) {
    status == Delivered || status == Failed || status == Cancelled
  }

  /** The clock readings of the sends of one delivery, in order. */
  function Times(sends: seq<Attempt>, id: nat): seq<Time> {
    if sends == [] then []
    else
      var n := |sends| - 1;
      Times(sends[..n], id) + if sends[n].delivery == id then [sends[n].at] else []
  }

  /** How many sends of one delivery succeeded. */
  function Successes(sends: seq<Attempt>, id: nat): nat {
    if sends == [] then 0
    else
      var n := |sends| - 1;
      Successes(sends[..n], id) + if sends[n].delivery == id && sends[n].ok then 1 else 0
  }

  lemma OneMoreSend(sends: seq<Attempt>, a: Attempt, id: nat)
    ensures Times(sends + [a], id) == Times(sends, id) + if a.delivery == id then [a.at] else []
    ensures Successes(sends + [a], id) == Successes(sends, id) + if a.delivery == id && a.ok then 1 else 0
  {
    assert (sends + [a])[..|sends|] == sends;
  }

  lemma {:induction false} UnknownNeverSent(sends: seq<Attempt>, id: nat)
    requires forall i :: 0 <= i < |sends| ==> sends[i].delivery != id
    ensures Times(sends, id) == [] && Successes(sends, id) == 0
  {
    if sends != [] {
      UnknownNeverSent(sends[..|sends| - 1], id);
    }
  }

  /** Every way one step can change one existing delivery row. */
  ghost predicate Moves(r: Delivery, r': Delivery, p: Phase, a: Action, id: nat) {
    || r' == r
    || (a.Enqueue? && r.status == Pending && r' == r.(status := Cancelled))
    || (a.Claim? && p.ToClaim? && p.id == id && r == p.row && r.status == Pending && r' == r.(status := Sending))
    || (a.Record? && p.ToRecord? && p.id == id && r.status == Sending
        && r' == if p.ok then AfterSuccess(r, r.attempts + 1, p.now) else AfterFailure(r, r.attempts + 1, p.retry, p.now))
    || (a.Start? && p.Down? && r.status == Sending && r' == r.(status := Pending, nextAttemptAt := Some(a.now)))
  }

  lemma EnqueueMoves(s: Sys, e: Event, now: Time, id: nat)
    requires Good(s) && id in s.db.deliveries
    ensures var ds := EnqueueStep(s, e, now).db.deliveries;
            id in ds && (ds[id] == s.db.deliveries[id]
                         || (s.db.deliveries[id].status == Pending && ds[id] == s.db.deliveries[id].(status := Cancelled)))
  {
    if ValidEvent(e) {
      EnqueueEffect(s.db, e, now);
      var db' := EnqueueTx(s.db, e, now).0;
      assert DeliveryStays(s.db.deliveries[id], db'.deliveries[id], db'.events, e.key, now);
    }
  }

  /** Only four steps write delivery rows. */
  lemma OthersKeepDeliveries(s: Sys, a: Action)
    requires !a.Enqueue? && !a.Claim? && !a.Record? && !a.Start?
    ensures Step(s, a).db.deliveries == s.db.deliveries
  {
  }

  /** What a step did to one delivery row is one of the moves. */
  ghost predicate Moved(s: Sys, s': Sys, a: Action, id: nat) {
    id in s.db.deliveries ==> id in s'.db.deliveries && Moves(s.db.deliveries[id], s'.db.deliveries[id], s.phase, a, id)
  }

  lemma ClaimOrRecordMoves(s: Sys, a: Action, s': Sys, id: nat)
    requires Good(s) && s' == Step(s, a) && (a.Claim? || a.Record?)
    ensures Moved(s, s', a, id)
  {
    if id in s.db.deliveries {
      ClaimMoves(s, id);
      RecordMoves(s, id);
    }
  }

  lemma EnqueueOrStartMoves(s: Sys, a: Action, s': Sys, id: nat)
    requires Good(s) && s' == Step(s, a) && (a.Enqueue? || a.Start?)
    ensures Moved(s, s', a, id)
  {
    if id in s.db.deliveries {
      if a.Enqueue? {
        EnqueueMovesRow(s, a.event, a.now, id);
      } else {
        StartMoves(s, a.now, a.recovered, id);
      }
    }
  }

  lemma StepMoves(s: Sys, a: Action, id: nat)
    requires Good(s)
    ensures var s' := Step(s, a);
            id in s.db.deliveries ==> id in s'.db.deliveries && Moves(s.db.deliveries[id], s'.db.deliveries[id], s.phase, a, id)
  {
    if a.Claim? || a.Record? {
      ClaimOrRecordMoves(s, a, Step(s, a), id);
    } else if a.Enqueue? || a.Start? {
      EnqueueOrStartMoves(s, a, Step(s, a), id);
    } else if id in s.db.deliveries {
      OthersMoveNothing(s, a, id);
    }
  }

  lemma OthersMoveNothing(s: Sys, a: Action, id: nat)
    requires !a.Enqueue? && !a.Claim? && !a.Record? && !a.Start? && id in s.db.deliveries
    ensures id in Step(s, a).db.deliveries && Moves(s.db.deliveries[id], Step(s, a).db.deliveries[id], s.phase, a, id)
  {
    OthersKeepDeliveries(s, a);
  }

  lemma EnqueueMovesRow(s: Sys, e: Event, now: Time, id: nat)
    requires Good(s) && id in s.db.deliveries
    ensures var ds := EnqueueStep(s, e, now).db.deliveries;
            id in ds && Moves(s.db.deliveries[id], ds[id], s.phase, Enqueue(e, now), id)
  {
    EnqueueMoves(s, e, now, id);
  }

  lemma ClaimMoves(s: Sys, id: nat)
    requires PhaseAgrees(s.db.deliveries, s.phase) && id in s.db.deliveries
    ensures var ds := ClaimStep(s).db.deliveries; id in ds && Moves(s.db.deliveries[id], ds[id], s.phase, Claim, id)
  {
  }

  lemma RecordMoves(s: Sys, id: nat)
    requires PhaseAgrees(s.db.deliveries, s.phase) && id in s.db.deliveries
    ensures var ds := RecordStep(s).db.deliveries; id in ds && Moves(s.db.deliveries[id], ds[id], s.phase, Record, id)
  {
  }

  lemma StartMoves(s: Sys, now: Time, recovered: bool, id: nat)
    requires id in s.db.deliveries
    ensures var ds := StartStep(s, now, recovered).db.deliveries;
            id in ds && Moves(s.db.deliveries[id], ds[id], s.phase, Start(now, recovered), id)
  {
  }

  lemma EnqueueAdds(db: Db, db': Db, e: Event, now: Time, id: nat)
    requires Effect(db, db', e, now) && id in db'.deliveries && id !in db.deliveries
    ensures db.nextDelivery <= id && db'.deliveries[id].status == Pending && db'.deliveries[id].attempts == 0
  {
    NewDeliveryAt(db, db', e, now, id);
  }

  lemma OthersAddNone(s: Sys, a: Action)
    requires !a.Enqueue?
    ensures Step(s, a).db.deliveries.Keys == s.db.deliveries.Keys
  {
  }

  /** A row that appears is a fresh one of the running transaction. */
  lemma StepAdds(s: Sys, a: Action, id: nat)
    requires Good(s)
    ensures var s' := Step(s, a);
            id in s'.db.deliveries && id !in s.db.deliveries ==>
              a.Enqueue? && s.db.nextDelivery <= id && s'.db.deliveries[id].status == Pending && s'.db.deliveries[id].attempts == 0
  {
    if !a.Enqueue? {
      OthersAddNone(s, a);
    } else if ValidEvent(a.event) {
      EnqueueEffect(s.db, a.event, a.now);
      var db' := EnqueueTx(s.db, a.event, a.now).0;
      if id in db'.deliveries && id !in s.db.deliveries {
        EnqueueAdds(s.db, db', a.event, a.now, id);
      }
    }
  }

  lemma StepSends(s: Sys, a: Action)
    requires Good(s)
    ensures var s' := Step(s, a);
            if a.Send? && s.phase.ToSend?
            then s'.sends == s.sends + [Attempt(s.phase.id, s.phase.now, a.ok)] && s.db.deliveries[s.phase.id].status == Sending
            else s'.sends == s.sends
  {
  }

  // ---- final statuses are final -------------------------------------------------------

  lemma StepKeepsFinal(s: Sys, a: Action, id: nat)
    requires Good(s) && id in s.db.deliveries && Final(s.db.deliveries[id].status)
    ensures var s' := Step(s, a);
            && id in s'.db.deliveries && s'.db.deliveries[id] == s.db.deliveries[id]
            && Times(s'.sends, id) == Times(s.sends, id) && Successes(s'.sends, id) == Successes(s.sends, id)
  {
    StepMoves(s, a, id);
    StepSends(s, a);
    if a.Send? && s.phase.ToSend? {
      OneMoreSend(s.sends, Attempt(s.phase.id, s.phase.now, a.ok), id);
    }
  }

  /** Delivered, failed and cancelled rows never change again, and none of them is ever sent again. */
  lemma {:induction false} FinalIsForever(s: Sys, actions: seq<Action>, id: nat)
    requires Good(s) && id in s.db.deliveries && Final(s.db.deliveries[id].status)
    ensures var s' := Run(s, actions);
            && id in s'.db.deliveries && s'.db.deliveries[id] == s.db.deliveries[id]
            && Times(s'.sends, id) == Times(s.sends, id) && Successes(s'.sends, id) == Successes(s.sends, id)
  {
    if actions != [] {
      var init := actions[..|actions| - 1];
      FinalIsForever(s, init, id);
      RunIsGood(s, init);
      StepKeepsFinal(Run(s, init), actions[|actions| - 1], id);
    }
  }

  // ---- how often a delivery is sent ---------------------------------------------------

  /** Whether the worker holds this delivery and has not sent it yet. */
  predicate Unsent(p: Phase, id: nat) {
    (p.ToLoad? || p.ToSend?) && p.id == id
  }

  /** Whether the worker holds this delivery after a send that did not succeed. */
  predicate Refused(p: Phase, id: nat) {
    p.ToRecord? && p.id == id && !p.ok
  }

  /** The account of one delivery: its sends are covered by its recorded attempts, the restarts,
      and at most one send in progress; its successes by the restarts and at most one more. */
  ghost predicate Account(s: Sys, id: nat, most: int)
    requires id in s.db.deliveries
  {
    var d := s.db.deliveries[id];
    var inProgress := if d.status == Sending && !Unsent(s.phase, id) then 1 else 0;
    var succeeded := if d.status == Delivered || (inProgress == 1 && !Refused(s.phase, id)) then 1 else 0;
    && |Times(s.sends, id)| <= d.attempts + s.restarts + inProgress
    && Successes(s.sends, id) <= s.restarts + succeeded
    && d.attempts <= if d.status == Delivered || d.status == Failed then most + 1 else most
  }

  ghost predicate Accounts(s: Sys, most: int) {
    && 0 <= most && s.db.retryCount <= most
    && (s.phase.ToSend? || s.phase.ToRecord? ==> s.phase.retry <= most)
    && forall id :: id in s.db.deliveries ==> Account(s, id, most)
  }

  predicate RetryWithin(actions: seq<Action>, most: int) {
    forall i :: 0 <= i < |actions| && actions[i].SetRetry? ==> actions[i].count <= most
  }

  lemma SendAccount(s: Sys, a: Action, id: nat, most: int)
    requires a.Send? && PhaseAgrees(s.db.deliveries, s.phase) && id in s.db.deliveries && Account(s, id, most)
    ensures id in Step(s, a).db.deliveries && Account(Step(s, a), id, most)
  {
    if s.phase.ToSend? {
      OneMoreSend(s.sends, Attempt(s.phase.id, s.phase.now, a.ok), id);
    }
  }

  lemma ClaimAccount(s: Sys, id: nat, most: int)
    requires PhaseAgrees(s.db.deliveries, s.phase) && id in s.db.deliveries && Account(s, id, most)
    ensures id in ClaimStep(s).db.deliveries && Account(ClaimStep(s), id, most)
  {
  }

  lemma RecordAccount(s: Sys, a: Action, id: nat, most: int)
    requires a.Record? && PhaseAgrees(s.db.deliveries, s.phase) && id in s.db.deliveries && Account(s, id, most)
    requires 0 <= most && (s.phase.ToRecord? ==> s.phase.retry <= most)
    ensures id in Step(s, a).db.deliveries && Account(Step(s, a), id, most)
  {
  }

  lemma QuietAccount(s: Sys, a: Action, id: nat, most: int)
    requires PhaseAgrees(s.db.deliveries, s.phase) && id in s.db.deliveries && Account(s, id, most)
    requires a.Read? || a.Load? || a.CountOpen? || a.CountFailed? || a.Write?
    ensures id in Step(s, a).db.deliveries && Account(Step(s, a), id, most)
  {
  }

  /** An administrator's edit, or a transaction that at most cancels the row. */
  lemma TableAccount(s: Sys, s': Sys, id: nat, most: int)
    requires id in s.db.deliveries && id in s'.db.deliveries && Account(s, id, most)
    requires s'.phase == s.phase && s'.sends == s.sends && s'.restarts == s.restarts
    requires var d, d' := s.db.deliveries[id], s'.db.deliveries[id];
             d' == d || (d.status == Pending && d' == d.(status := Cancelled))
    ensures Account(s', id, most)
  {
  }

  lemma EndAccount(s: Sys, to: Phase, id: nat, most: int)
    requires id in s.db.deliveries && Account(s, id, most) && (to.Idle? || to.Down?)
    ensures Account(AbortStep(s, to), id, most)
  {
  }

  lemma StartAccount(s: Sys, now: Time, recovered: bool, id: nat, most: int)
    requires id in s.db.deliveries && Account(s, id, most)
    ensures id in StartStep(s, now, recovered).db.deliveries && Account(StartStep(s, now, recovered), id, most)
  {
  }

  lemma EnqueueAccount(s: Sys, e: Event, now: Time, id: nat, most: int)
    requires Good(s) && id in s.db.deliveries && Account(s, id, most)
    ensures id in EnqueueStep(s, e, now).db.deliveries && Account(EnqueueStep(s, e, now), id, most)
  {
    EnqueueMoves(s, e, now, id);
    TableAccount(s, EnqueueStep(s, e, now), id, most);
  }

  lemma AdminAccount(s: Sys, a: Action, id: nat, most: int)
    requires id in s.db.deliveries && Account(s, id, most)
    ensures AdminStep(s, a).db.deliveries == s.db.deliveries && Account(AdminStep(s, a), id, most)
  {
    TableAccount(s, AdminStep(s, a), id, most);
  }

  ghost predicate Accounted(s: Sys, id: nat, most: int) {
    id in s.db.deliveries && Account(s, id, most)
  }

  lemma EditAccount(s: Sys, a: Action, s': Sys, id: nat, most: int)
    requires Good(s) && Accounted(s, id, most) && s' == Step(s, a)
    requires a.Enqueue? || a.SetRule? || a.SetRecipients? || a.SetRetry?
    ensures Accounted(s', id, most)
  {
    if a.Enqueue? {
      EnqueueAccount(s, a.event, a.now, id, most);
    } else {
      AdminAccount(s, a, id, most);
    }
  }

  lemma CutAccount(s: Sys, a: Action, s': Sys, id: nat, most: int)
    requires Accounted(s, id, most) && s' == Step(s, a) && (a.Abort? || a.Crash? || a.Start?)
    ensures Accounted(s', id, most)
  {
    match a
    case Abort => EndAccount(s, Idle, id, most);
    case Crash => EndAccount(s, Down, id, most);
    case Start(now, recovered) => StartAccount(s, now, recovered, id, most);
  }

  lemma NewAccount(s: Sys, a: Action, id: nat, most: int)
    requires Good(s) && Accounts(s, most) && id in Step(s, a).db.deliveries && id !in s.db.deliveries
    ensures Account(Step(s, a), id, most)
  {
    StepAdds(s, a, id);
    UnknownNeverSent(s.sends, id);
  }

  lemma StepAccount(s: Sys, a: Action, id: nat, most: int)
    requires Good(s) && Accounts(s, most) && id in Step(s, a).db.deliveries
    ensures Account(Step(s, a), id, most)
  {
    if id !in s.db.deliveries {
      NewAccount(s, a, id, most);
    } else if a.Send? {
      SendAccount(s, a, id, most);
    } else if a.Claim? {
      ClaimAccount(s, id, most);
    } else if a.Record? {
      RecordAccount(s, a, id, most);
    } else if a.Read? || a.Load? || a.CountOpen? || a.CountFailed? || a.Write? {
      QuietAccount(s, a, id, most);
    } else if a.Enqueue? || a.SetRule? || a.SetRecipients? || a.SetRetry? {
      assert Account(s, id, most);
      EditAccount(s, a, Step(s, a), id, most);
    } else {
      assert Account(s, id, most);
      CutAccount(s, a, Step(s, a), id, most);
    }
  }

  /** The retry counts in use stay within the bound. */
  ghost predicate RetryBound(s: Sys, most: int) {
    s.db.retryCount <= most && (s.phase.ToSend? || s.phase.ToRecord? ==> s.phase.retry <= most)
  }

  lemma EnqueueKeepsRetry(s: Sys, e: Event, now: Time)
    requires Good(s)
    ensures var s' := EnqueueStep(s, e, now); s'.db.retryCount == s.db.retryCount && s'.phase == s.phase
  {
    EnqueueEffect(s.db, e, now);
  }

  lemma OtherRetryBound(s: Sys, a: Action, most: int)
    requires RetryBound(s, most) && !a.Enqueue? && (a.SetRetry? ==> a.count <= most)
    ensures RetryBound(Step(s, a), most)
  {
  }

  lemma StepRetryBound(s: Sys, a: Action, s': Sys, most: int)
    requires Good(s) && RetryBound(s, most) && s' == Step(s, a) && (a.SetRetry? ==> a.count <= most)
    ensures RetryBound(s', most)
  {
    if a.Enqueue? {
      EnqueueKeepsRetry(s, a.event, a.now);
    } else {
      OtherRetryBound(s, a, most);
    }
  }

  lemma StepAccounts(s: Sys, a: Action, most: int)
    requires Good(s) && Accounts(s, most) && (a.SetRetry? ==> a.count <= most)
    ensures Accounts(Step(s, a), most)
  {
    var s' := Step(s, a);
    forall id | id in s'.db.deliveries ensures Account(s', id, most) {
      StepAccount(s, a, id, most);
    }
    StepRetryBound(s, a, s', most);
  }

  lemma {:induction false} RunAccounts(s: Sys, actions: seq<Action>, most: int)
    requires Good(s) && Accounts(s, most) && RetryWithin(actions, most)
    ensures Accounts(Run(s, actions), most)
  {
    if actions != [] {
      var init := actions[..|actions| - 1];
      RunAccounts(s, init, most);
      RunIsGood(s, init);
      StepAccounts(Run(s, init), actions[|actions| - 1], most);
    }
  }

  /** With the retry count never above `most` and k restarts, a delivery reaches Send at most most + 1 + k
      times and at most 1 + k of them succeed. */
  lemma SendsAreBounded(db: Db, clock: Time, actions: seq<Action>, most: int, id: nat)
    requires Empty(db) && 0 <= most && db.retryCount <= most && RetryWithin(actions, most)
    ensures var s := Run(Start0(db, clock), actions);
            && |Times(s.sends, id)| <= most + 1 + s.restarts
            && Successes(s.sends, id) <= 1 + s.restarts
  {
    var s := Run(Start0(db, clock), actions);
    StartIsGood(db, clock);
    RunIsGood(Start0(db, clock), actions);
    RunAccounts(Start0(db, clock), actions, most);
    if id in s.db.deliveries {
      assert Account(s, id, most);
    } else {
      RunSendsKnown(Start0(db, clock), actions, id);
    }
  }

  /** Only rows of the table are ever sent. */
  lemma {:induction false} RunSendsKnown(s: Sys, actions: seq<Action>, id: nat)
    requires Good(s) && Times(s.sends, id) == [] && Successes(s.sends, id) == 0
    ensures var s' := Run(s, actions); id !in s'.db.deliveries ==> Times(s'.sends, id) == [] && Successes(s'.sends, id) == 0
  {
    if actions != [] {
      var init := actions[..|actions| - 1];
      var r, a := Run(s, init), actions[|actions| - 1];
      RunSendsKnown(s, init, id);
      RunIsGood(s, init);
      StepMoves(r, a, id);
      StepSends(r, a);
      if a.Send? && r.phase.ToSend? {
        OneMoreSend(r.sends, Attempt(r.phase.id, r.phase.now, a.ok), id);
      }
    }
  }

  // ---- foreign keys -------------------------------------------------------------------

  /** Every delivery's event and recipient exist, and so does every selected recipient. */
  ghost predicate Referenced(db: Db) {
    && (forall d :: d in db.deliveries ==>
          db.deliveries[d].eventId in db.events && KnownRecipient(db, db.deliveries[d].recipientId))
    && LinksKnown(db)
  }

  lemma EnqueueKeepsReferences(db: Db, db': Db, e: Event, now: Time)
    requires WellFormed(db) && Referenced(db) && Effect(db, db', e, now) && WellFormed(db')
    ensures Referenced(db')
  {
    EffectKeepsPairs(db, db', e, now);
    ChosenDistinct(db.recipients, db.links, e.key, e.audience, HasSelection(db.links, e.key));
    forall d | d in db'.deliveries ensures KnownRecipient(db', db'.deliveries[d].recipientId) {
      if d in db.deliveries {
        assert SamePair(db'.deliveries[d], db.deliveries[d]);
      } else {
        NewDeliveryAt(db, db', e, now, d);
        assert HasRecipient(db.recipients, db'.deliveries[d].recipientId);
      }
    }
  }

  lemma AdminKeepsReferences(s: Sys, a: Action)
    requires Referenced(s.db)
    ensures Referenced(AdminStep(s, a).db)
  {
    var db, db' := s.db, AdminStep(s, a).db;
    forall d | d in db'.deliveries ensures KnownRecipient(db', db'.deliveries[d].recipientId) {
      assert KnownRecipient(db, db.deliveries[d].recipientId);
    }
  }

  /** Rows keep what they refer to. */
  ghost predicate SameReferences(db: Db, db': Db) {
    && db'.deliveries.Keys == db.deliveries.Keys && db'.events.Keys == db.events.Keys
    && db'.recipients == db.recipients && db'.links == db.links
    && forall d :: d in db.deliveries ==> SamePair(db'.deliveries[d], db.deliveries[d])
  }

  lemma SameKeepsReferences(db: Db, db': Db)
    requires Referenced(db) && SameReferences(db, db')
    ensures Referenced(db')
  {
    forall d | d in db'.deliveries ensures KnownRecipient(db', db'.deliveries[d].recipientId) {
      assert SamePair(db'.deliveries[d], db.deliveries[d]) && KnownRecipient(db, db.deliveries[d].recipientId);
    }
    forall link | link in db'.links ensures KnownRecipient(db', link.1) {
      assert KnownRecipient(db, link.1);
    }
  }

  lemma ClaimSame(s: Sys)
    requires PhaseAgrees(s.db.deliveries, s.phase)
    ensures SameReferences(s.db, ClaimStep(s).db) && SameReferences(s.db, RecordStep(s).db)
  {
  }

  lemma StartSame(s: Sys, now: Time, recovered: bool)
    ensures SameReferences(s.db, StartStep(s, now, recovered).db) && SameReferences(s.db, WriteStep(s).db)
  {
  }

  lemma QuietSame(s: Sys, a: Action)
    requires a.Read? || a.Load? || a.Send? || a.CountOpen? || a.CountFailed? || a.Abort? || a.Crash?
    ensures Step(s, a).db == s.db
  {
  }

  lemma StepKeepsReferences(s: Sys, a: Action)
    requires Good(s) && Referenced(s.db)
    ensures Referenced(Step(s, a).db)
  {
    match a
    case Enqueue(e, now) =>
      if ValidEvent(e) {
        EnqueueEffect(s.db, e, now);
        EnqueueKeeps(s.db, e, now);
        EnqueueKeepsReferences(s.db, EnqueueTx(s.db, e, now).0, e, now);
      }
    case SetRule(_, _, _) => AdminKeepsReferences(s, a);
    case SetRecipients(_) => AdminKeepsReferences(s, a);
    case SetRetry(_) => AdminKeepsReferences(s, a);
    case Claim =>
      ClaimSame(s);
      SameKeepsReferences(s.db, ClaimStep(s).db);
    case Record =>
      ClaimSame(s);
      SameKeepsReferences(s.db, RecordStep(s).db);
    case Start(now, recovered) =>
      StartSame(s, now, recovered);
      SameKeepsReferences(s.db, StartStep(s, now, recovered).db);
    case Write =>
      StartSame(s, 0, true);
      SameKeepsReferences(s.db, WriteStep(s).db);
    case _ => QuietSame(s, a);
  }

  lemma {:induction false} RunKeepsReferences(s: Sys, actions: seq<Action>)
    requires Good(s) && Referenced(s.db)
    ensures Referenced(Run(s, actions).db)
  {
    if actions != [] {
      RunKeepsReferences(s, actions[..|actions| - 1]);
      RunIsGood(s, actions[..|actions| - 1]);
      StepKeepsReferences(Run(s, actions[..|actions| - 1]), actions[|actions| - 1]);
    }
  }

  lemma LookUpNeverFails(s: Sys)
    requires Good(s) && Referenced(s.db)
    ensures s.phase.ToLoad? ==> !LoadStep(s).phase.Idle?
  {
  }

  /** In every reachable state, whatever administrators edit, each delivery's event and recipient exist: so the lookups
      after a claim never fail but by a database error. */
  lemma ReferencesHold(db: Db, clock: Time, actions: seq<Action>)
    requires Empty(db)
    ensures var s := Run(Start0(db, clock), actions);
            Referenced(s.db) && (s.phase.ToLoad? ==> !LoadStep(s).phase.Idle?)
  {
    StartIsGood(db, clock);
    RunIsGood(Start0(db, clock), actions);
    RunKeepsReferences(Start0(db, clock), actions);
    LookUpNeverFails(Run(Start0(db, clock), actions));
  }

  // ---- what "sending" means -----------------------------------------------------------

  predicate Holds(p: Phase, id: nat) {
    (p.ToLoad? || p.ToSend? || p.ToRecord?) && p.id == id
  }

  /** A run in which no call is cut short by a database error or a crash. */
  predicate Smooth(actions: seq<Action>) {
    forall i :: 0 <= i < |actions| ==> !actions[i].Abort? && !actions[i].Crash?
  }

  ghost predicate OnlyHeld(s: Sys) {
    !s.phase.Down? && forall id :: id in s.db.deliveries && s.db.deliveries[id].status == Sending ==> Holds(s.phase, id)
  }

  lemma RowMovesHeld(s: Sys, s': Sys, a: Action)
    requires Good(s) && OnlyHeld(s) && s' == Step(s, a) && (a.Claim? || a.Record?)
    ensures OnlyHeld(s')
  {
  }

  lemma EnqueueHeld(s: Sys, e: Event, now: Time)
    requires Good(s) && OnlyHeld(s)
    ensures OnlyHeld(EnqueueStep(s, e, now))
  {
    var s' := EnqueueStep(s, e, now);
    forall id | id in s'.db.deliveries && s'.db.deliveries[id].status == Sending ensures Holds(s'.phase, id) {
      if id in s.db.deliveries {
        EnqueueMoves(s, e, now, id);
      } else {
        StepAdds(s, Enqueue(e, now), id);
      }
    }
  }

  /** Steps that write no delivery row, but may pass it on. */
  lemma PassHeld(s: Sys, a: Action)
    requires OnlyHeld(s) && !a.Enqueue? && !a.Claim? && !a.Record? && !a.Abort? && !a.Crash?
    requires a.Load? && s.phase.ToLoad? ==> !LoadStep(s).phase.Idle?
    ensures OnlyHeld(Step(s, a))
  {
  }

  lemma {:induction false} RunHeld(s: Sys, actions: seq<Action>)
    requires Good(s) && Referenced(s.db) && OnlyHeld(s) && Smooth(actions)
    ensures OnlyHeld(Run(s, actions))
  {
    if actions != [] {
      var init, a := actions[..|actions| - 1], actions[|actions| - 1];
      RunHeld(s, init);
      RunIsGood(s, init);
      RunKeepsReferences(s, init);
      var r := Run(s, init);
      LookUpNeverFails(r);
      if a.Enqueue? {
        EnqueueHeld(r, a.event, a.now);
      } else if a.Claim? || a.Record? {
        RowMovesHeld(r, Step(r, a), a);
      } else {
        PassHeld(r, a);
      }
    }
  }

  /** As long as no call is cut short, a delivery is in "sending" exactly while the worker holds it, so none is left
      there between two calls. */
  lemma SendingMeansHeld(db: Db, clock: Time, actions: seq<Action>, id: nat)
    requires Empty(db) && Smooth(actions)
    requires id in Run(Start0(db, clock), actions).db.deliveries
    ensures var s := Run(Start0(db, clock), actions); s.db.deliveries[id].status == Sending <==> Holds(s.phase, id)
  {
    StartIsGood(db, clock);
    RunIsGood(Start0(db, clock), actions);
    RunHeld(Start0(db, clock), actions);
  }

  /** What a restart does to a row: what a cut call left in "sending" is due again at once if the recovery statement, whose
      error is ignored, works; no other row changes, and none at all if it fails. */
  lemma RestartFreesAll(s: Sys, now: Time, recovered: bool, id: nat)
    requires s.phase.Down? && id in s.db.deliveries
    ensures var s' := Step(s, Start(now, recovered));
            && s'.phase.Idle? && id in s'.db.deliveries && (recovered ==> OnlyHeld(s'))
            && if recovered && s.db.deliveries[id].status == Sending
               then s'.db.deliveries[id] == s.db.deliveries[id].(status := Pending, nextAttemptAt := Some(now))
               else s'.db.deliveries[id] == s.db.deliveries[id]
  {
  }

  predicate RecoversInFlight(a: Action) {
    a.Start? && a.recovered
  }

  /** A row in "sending" that the worker does not hold. */
  ghost predicate Stranded(s: Sys, id: nat) {
    id in s.db.deliveries && s.db.deliveries[id].status == Sending && !Holds(s.phase, id)
  }

  lemma StepLeavesStranded(s: Sys, a: Action, id: nat)
    requires Good(s) && Stranded(s, id) && !RecoversInFlight(a)
    ensures var s' := Step(s, a); Stranded(s', id) && s'.db.deliveries[id] == s.db.deliveries[id]
    ensures Times(Step(s, a).sends, id) == Times(s.sends, id)
  {
    StepMoves(s, a, id);
    StepSends(s, a);
    PhaseKeepsStranded(s, a, id);
    if a.Send? && s.phase.ToSend? {
      OneMoreSend(s.sends, Attempt(s.phase.id, s.phase.now, a.ok), id);
    }
  }

  /** The worker takes hold of a row only by claiming it. */
  lemma OnlyClaimTakes(s: Sys, a: Action, id: nat)
    requires !a.Claim? && Holds(Step(s, a).phase, id)
    ensures Holds(s.phase, id)
  {
  }

  lemma ClaimTakesPending(s: Sys, id: nat)
    requires Stranded(s, id)
    ensures !Holds(ClaimStep(s).phase, id)
  {
  }

  lemma PhaseKeepsStranded(s: Sys, a: Action, id: nat)
    requires Stranded(s, id) && !RecoversInFlight(a)
    ensures !Holds(Step(s, a).phase, id)
    ensures a.Start? ==> Step(s, a).db == s.db
  {
    if a.Claim? {
      ClaimTakesPending(s, id);
    } else if Holds(Step(s, a).phase, id) {
      OnlyClaimTakes(s, a, id);
    }
  }

  /** A call that was cut short after its claim leaves its row in "sending": it is neither sent nor cancelled nor retried
      until the service restarts. */
  lemma {:induction false} StrandedUntilRestart(s: Sys, actions: seq<Action>, id: nat)
    requires Good(s) && Stranded(s, id) && forall i :: 0 <= i < |actions| ==> !RecoversInFlight(actions[i])
    ensures var s' := Run(s, actions); Stranded(s', id) && s'.db.deliveries[id] == s.db.deliveries[id]
    ensures Times(Run(s, actions).sends, id) == Times(s.sends, id)
  {
    if actions != [] {
      var init := actions[..|actions| - 1];
      StrandedUntilRestart(s, init, id);
      RunIsGood(s, init);
      StepLeavesStranded(Run(s, init), actions[|actions| - 1], id);
    }
  }
}
