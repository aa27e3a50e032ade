/** The alert state of one scope over every run: its shape, the order of accepted steps, and their pacing. */
module Scopes {
  import opened Common
  import opened Store
  import opened Alerts
  import opened Worker

  /** The accepted steps of one scope, in order. */
  function Of(log: seq<Acceptance>, scope: Scope): seq<Acceptance> {
    if log == [] then []
    else
      var n := |log| - 1;
      if log[n].scope == scope then Of(log[..n], scope) + [log[n]] else Of(log[..n], scope)
  }

  lemma OfGrows(log: seq<Acceptance>, a: Acceptance, scope: Scope)
    ensures Of(log + [a], scope) == if a.scope == scope then Of(log, scope) + [a] else Of(log, scope)
  {
    assert (log + [a])[..|log|] == log;
  }

  /** Whether a step may follow the steps before it: a trigger exactly at the start and after a recovery. */
  predicate MayFollow(before: seq<Acceptance>, a: Acceptance) {
    Accepts(a.kind) && (a.kind.Trigger? <==> before == [] || before[|before| - 1].kind.Recover?)
  }

  /** (trigger repeat* recovery)*, possibly cut off. */
  ghost predicate Ordered(log: seq<Acceptance>) {
    log != [] ==> Ordered(log[..|log| - 1]) && MayFollow(log[..|log| - 1], log[|log| - 1])
  }

  ghost predicate Shape(db: Db, state: State, log: seq<Acceptance>) {
    && Ordered(log)
    && (log == [] ==> state == BLANK_STATE)
    && (state.active <==> log != [] && !log[|log| - 1].kind.Recover?)
    && (state.active ==>
          && state.activeDedupKey.Some? && state.lastEventId.Some? && state.resolvedAt.None?
          && state.lastEventId.value in db.events
          && state.lastTriggeredAt.Some? && state.lastNotifiedAt == Some(log[|log| - 1].at)
          && state.lastTriggeredAt.value <= state.lastNotifiedAt.value)
    && (log != [] && !state.active ==> state.activeDedupKey.None? && state.resolvedAt == Some(log[|log| - 1].at))
  }

  /** Clock readings of successive transactions never go back. */
  ghost predicate Monotone(s: Sys, actions: seq<Action>) {
    actions != [] ==>
      var init, a := actions[..|actions| - 1], actions[|actions| - 1];
      Monotone(s, init) && (a.Enqueue? ==> Run(s, init).clock <= a.now)
  }

  ghost predicate Shaped(s: Sys, scope: Scope) {
    var log := Of(s.accepted, scope);
    Shape(s.db, StateOf(s.db, scope), log) && (log != [] ==> log[|log| - 1].at <= s.clock)
  }

  // ---- one transaction ----------------------------------------------------------------

  /** The state row a verdict leaves behind. */
  function StateAfter(state: State, rule: Rule, v: Verdict, e: Event, id: nat, now: Time): State {
    match v
    case Trigger => Triggered(state, e, id, now)
    case Repeat => Triggered(state, e, id, now)
    case Recover => Recovered(state, rule, id, now)
    case _ => state
  }

  lemma CreateKeepsStates(db: Db, e: Event, severity: string, dedupKey: string, now: Time, resolvedAt: Option<Time>)
    ensures CreateEvent(db, e, severity, dedupKey, now, resolvedAt).0.states == db.states
  {
  }

  /** A transaction writes its own scope's state row and no other. */
  lemma EnqueueState(db: Db, e: Event, now: Time, scope: Scope)
    ensures var (db', id) := EnqueueTx(db, e, now);
            StateOf(db', scope) ==
              if scope == ScopeOf(e) then StateAfter(StateOf(db, scope), RuleOf(db, e), VerdictOf(db, e, now), e, id, now)
              else StateOf(db, scope)
  {
    var rule, v, ruled := RuleOf(db, e), VerdictOf(db, e, now), WithRule(db, e);
    if v.Recover? {
      CreateKeepsStates(ResolveAll(ruled, e, now), e, "recovery", RecoveryKey(e, now), now, Some(now));
    } else if Inserts(v) {
      CreateKeepsStates(ruled, e, rule.severity, KeyFor(v, e, now), now, None);
    }
  }

  /** A transaction stores the default rule for its key if there is none, and changes no rule that exists. */
  lemma EnqueueRules(db: Db, e: Event, now: Time)
    ensures EnqueueTx(db, e, now).0.rules == db.rules[e.key := RuleOf(db, e)]
  {
  }

  /** The event id an accepted alert stores is the id of a row. */
  lemma EnqueueReports(db: Db, e: Event, now: Time)
    requires WellFormed(db)
    ensures var (db', id) := EnqueueTx(db, e, now);
            var v := VerdictOf(db, e, now);
            v.Trigger? || v.Repeat? ==> id in db'.events && db'.events[id].dedupKey == KeyFor(v, e, now)
  {
    var v := VerdictOf(db, e, now);
    if v.Trigger? || v.Repeat? {
      CreateEffect(WithRule(db, e), e, RuleOf(db, e).severity, KeyFor(v, e, now), now, None);
    }
  }

  lemma ShapeStep(db: Db, db': Db, state: State, rule: Rule, v: Verdict, e: Event, id: nat, now: Time, log: seq<Acceptance>)
    requires Shape(db, state, log) && v == Decide(rule, state, e, now)
    requires db.events.Keys <= db'.events.Keys && (v.Trigger? || v.Repeat? ==> id in db'.events)
    requires log != [] ==> log[|log| - 1].at <= now
    ensures Shape(db', StateAfter(state, rule, v, e, id, now),
                  if Accepts(v) then log + [Acceptance(ScopeOf(e), v, now)] else log)
  {
    if Accepts(v) {
      assert (log + [Acceptance(ScopeOf(e), v, now)])[..|log|] == log;
    }
  }

  lemma EffectShaped(s: Sys, s': Sys, e: Event, now: Time, scope: Scope, id: nat)
    requires Shaped(s, scope) && s.clock <= now == s'.clock && s.db.events.Keys <= s'.db.events.Keys
    requires var v := VerdictOf(s.db, e, now);
             && (v.Trigger? || v.Repeat? ==> id in s'.db.events)
             && s'.accepted == (if Accepts(v) then s.accepted + [Acceptance(ScopeOf(e), v, now)] else s.accepted)
             && StateOf(s'.db, scope) ==
                  if scope == ScopeOf(e) then StateAfter(StateOf(s.db, scope), RuleOf(s.db, e), v, e, id, now)
                  else StateOf(s.db, scope)
    ensures Shaped(s', scope)
  {
    var v := VerdictOf(s.db, e, now);
    OfGrows(s.accepted, Acceptance(ScopeOf(e), v, now), scope);
    if scope == ScopeOf(e) {
      ShapeStep(s.db, s'.db, StateOf(s.db, scope), RuleOf(s.db, e), v, e, id, now, Of(s.accepted, scope));
    }
  }

  lemma EnqueueShaped(s: Sys, e: Event, now: Time, scope: Scope)
    requires Good(s) && Shaped(s, scope) && s.clock <= now && ValidEvent(e)
    ensures Shaped(EnqueueStep(s, e, now), scope)
  {
    EnqueueState(s.db, e, now, scope);
    EnqueueEffect(s.db, e, now);
    EnqueueReports(s.db, e, now);
    EffectShaped(s, EnqueueStep(s, e, now), e, now, scope, EnqueueTx(s.db, e, now).1);
  }

  lemma OtherStepsKeepStates(s: Sys, a: Action)
    requires !a.Enqueue?
    ensures var s' := Step(s, a);
            s'.db.states == s.db.states && s'.accepted == s.accepted && s'.clock == s.clock
            && s'.db.events.Keys == s.db.events.Keys
  {
  }

  lemma {:induction false} RunShaped(s: Sys, actions: seq<Action>, scope: Scope)
    requires Good(s) && Shaped(s, scope) && Monotone(s, actions)
    ensures Shaped(Run(s, actions), scope)
  {
    if actions != [] {
      var init, a := actions[..|actions| - 1], actions[|actions| - 1];
      RunShaped(s, init, scope);
      RunIsGood(s, init);
      if a.Enqueue? {
        if ValidEvent(a.event) {
          EnqueueShaped(Run(s, init), a.event, a.now, scope);
        }
      } else {
        OtherStepsKeepStates(Run(s, init), a);
      }
    }
  }

  /** In every reachable state an active scope has its dedup key, event, trigger and notify times and no
      resolution; an inactive one with a history has a resolution and no dedup key; and its accepted steps
      read (trigger repeat* recovery)*. */
  lemma EveryScopeHasShape(db: Db, clock: Time, actions: seq<Action>, scope: Scope)
    requires Empty(db) && Monotone(Start0(db, clock), actions)
    ensures var s := Run(Start0(db, clock), actions);
            Shape(s.db, StateOf(s.db, scope), Of(s.accepted, scope))
  {
    StartIsGood(db, clock);
    RunShaped(Start0(db, clock), actions, scope);
  }
}
