/** How often one scope can alert, whatever is enqueued. */
module Pacing {
  import opened Common
  import opened Store
  import opened Alerts
  import opened Worker
  import opened Scopes

  /** A rule at least as slow as repeat interval `every` and cooldown `cooldown` (seconds). */
  predicate Slow(rule: Rule, every: int, cooldown: int) {
    (rule.repeatEvery <= 0 || every <= rule.repeatEvery) && cooldown <= rule.cooldown
  }

  /** The stored rule, or the default one that the first event of the key will store. */
  predicate RuleIsSlow(db: Db, key: string, every: int, cooldown: int) {
    Slow(if key in db.rules then db.rules[key] else DefaultRule(""), every, cooldown)
  }

  predicate StaysSlow(actions: seq<Action>, key: string, every: int, cooldown: int) {
    forall i :: 0 <= i < |actions| && actions[i].SetRule? && actions[i].key == key ==> Slow(actions[i].rule, every, cooldown)
  }

  /** The least time a step keeps from the accepted step before it. */
  function Distance(kind: Verdict, every: int, cooldown: int): int {
    match kind
    case Repeat => every * SECOND
    case Trigger => cooldown * SECOND
    case _ => 0
  }

  ghost predicate Spaced(log: seq<Acceptance>, every: int, cooldown: int) {
    log != [] ==>
      var n := |log| - 1;
      Spaced(log[..n], every, cooldown)
      && (n > 0 ==> log[n].at >= log[n - 1].at + Distance(log[n].kind, every, cooldown))
  }

  ghost predicate Paced(s: Sys, scope: Scope, every: int, cooldown: int) {
    Shaped(s, scope) && Spaced(Of(s.accepted, scope), every, cooldown) && RuleIsSlow(s.db, scope.key, every, cooldown)
  }

  /** What Decide lets through, seen from the log. */
  lemma DecisionIsSpaced(db: Db, state: State, rule: Rule, e: Event, now: Time, log: seq<Acceptance>, every: int, cooldown: int)
    requires Shape(db, state, log) && Slow(rule, every, cooldown) && 0 < cooldown && log != [] && log[|log| - 1].at <= now
    ensures var v := Decide(rule, state, e, now);
            && (v.Repeat? ==> now >= log[|log| - 1].at + every * SECOND)
            && (v.Trigger? ==> now >= log[|log| - 1].at + cooldown * SECOND)
  {
  }

  lemma EnqueueSpaced(s: Sys, e: Event, now: Time, scope: Scope, every: int, cooldown: int)
    requires Paced(s, scope, every, cooldown) && s.clock <= now && 0 < cooldown
    requires scope == ScopeOf(e) && Accepts(VerdictOf(s.db, e, now))
    ensures Spaced(Of(s.accepted, scope) + [Acceptance(scope, VerdictOf(s.db, e, now), now)], every, cooldown)
  {
    var log := Of(s.accepted, scope);
    var a := Acceptance(scope, VerdictOf(s.db, e, now), now);
    if log != [] {
      DecisionIsSpaced(s.db, StateOf(s.db, scope), RuleOf(s.db, e), e, now, log, every, cooldown);
    }
    assert (log + [a])[..|log|] == log;
  }

  lemma EnqueuePaced(s: Sys, e: Event, now: Time, scope: Scope, every: int, cooldown: int)
    requires Good(s) && Paced(s, scope, every, cooldown) && s.clock <= now && ValidEvent(e) && 0 < cooldown
    ensures Paced(EnqueueStep(s, e, now), scope, every, cooldown)
  {
    EnqueueShaped(s, e, now, scope);
    EnqueueRules(s.db, e, now);
    OfGrows(s.accepted, Acceptance(ScopeOf(e), VerdictOf(s.db, e, now), now), scope);
    if scope == ScopeOf(e) && Accepts(VerdictOf(s.db, e, now)) {
      EnqueueSpaced(s, e, now, scope, every, cooldown);
    }
  }

  lemma OtherStepPaced(s: Sys, a: Action, scope: Scope, every: int, cooldown: int)
    requires Paced(s, scope, every, cooldown) && !a.Enqueue?
    requires a.SetRule? && a.key == scope.key ==> Slow(a.rule, every, cooldown)
    ensures Paced(Step(s, a), scope, every, cooldown)
  {
    OtherStepsKeepStates(s, a);
  }

  lemma {:induction false} RunPaced(s: Sys, actions: seq<Action>, scope: Scope, every: int, cooldown: int)
    requires Good(s) && Paced(s, scope, every, cooldown) && Monotone(s, actions)
    requires StaysSlow(actions, scope.key, every, cooldown) && 0 < cooldown
    ensures Paced(Run(s, actions), scope, every, cooldown)
  {
    if actions != [] {
      var init, a := actions[..|actions| - 1], actions[|actions| - 1];
      RunPaced(s, init, scope, every, cooldown);
      RunIsGood(s, init);
      if a.Enqueue? {
        if ValidEvent(a.event) {
          EnqueuePaced(Run(s, init), a.event, a.now, scope, every, cooldown);
        }
      } else {
        OtherStepPaced(Run(s, init), a, scope, every, cooldown);
      }
    }
  }

  /** The times at which the scope alerted: its accepted triggers and repeats. */
  function AlertTimes(log: seq<Acceptance>): seq<Time> {
    if log == [] then []
    else
      var n := |log| - 1;
      if log[n].kind.Recover? then AlertTimes(log[..n]) else AlertTimes(log[..n]) + [log[n].at]
  }

  ghost predicate Apart(times: seq<Time>, gap: int) {
    times != [] ==>
      var n := |times| - 1;
      Apart(times[..n], gap) && (n > 0 ==> times[n] >= times[n - 1] + gap)
  }

  lemma {:induction false} AlertsApart(log: seq<Acceptance>, every: int, cooldown: int, gap: int)
    requires Ordered(log) && Spaced(log, every, cooldown) && gap <= every * SECOND && gap <= cooldown * SECOND
    ensures Apart(AlertTimes(log), gap)
    ensures log != [] ==> var times := AlertTimes(log); times != [] && times[|times| - 1] <= log[|log| - 1].at
  {
    if log != [] {
      var n := |log| - 1;
      AlertsApart(log[..n], every, cooldown, gap);
      var before := AlertTimes(log[..n]);
      assert (before + [log[n].at])[..|before|] == before;
    }
  }

  /** How many of the times lie in the window [from, from + width]. */
  function InWindow(times: seq<Time>, from: Time, width: nat): nat {
    if times == [] then 0
    else
      var n := |times| - 1;
      InWindow(times[..n], from, width) + if from <= times[n] <= from + width then 1 else 0
  }

  lemma {:induction false} WindowFills(times: seq<Time>, from: Time, width: nat, gap: nat)
    requires Apart(times, gap) && 0 < gap
    ensures var c := InWindow(times, from, width);
            0 < c ==> times != [] && (c - 1) * gap <= width && from + (c - 1) * gap <= times[|times| - 1]
  {
    if times != [] {
      var n := |times| - 1;
      WindowFills(times[..n], from, width, gap);
      var c := InWindow(times[..n], from, width);
      if 0 < c {
        assert times[n] >= times[..n][n - 1] + gap;
        OneMore(c, gap);
      }
    }
  }

  lemma OneMore(c: int, gap: int)
    ensures c * gap == (c - 1) * gap + gap
  {
  }

  lemma {:induction false} WindowBound(times: seq<Time>, from: Time, width: nat, gap: nat)
    requires Apart(times, gap) && 0 < gap
    ensures InWindow(times, from, width) <= width / gap + 1
  {
    var c, q := InWindow(times, from, width), width / gap;
    WindowFills(times, from, width, gap);
    if c > q + 1 {
      MulGrows(q + 1, c - 1, gap);
      OneMore(q + 1, gap);
      assert false;
    }
  }

  lemma MulGrows(a: int, b: int, k: nat)
    requires a <= b
    ensures a * k <= b * k
  {
  }

  /** Under rules no faster than (every, cooldown), consecutive accepted steps of a scope keep their distance:
      a repeat comes `every` seconds after the alert before it, a trigger `cooldown` seconds after the recovery
      before it; so any window of `width` nanoseconds holds at most width / min + 1 alerts. */
  lemma AlertsArePaced(db: Db, clock: Time, actions: seq<Action>, scope: Scope, every: nat, cooldown: nat, from: Time, width: nat)
    requires Empty(db) && Monotone(Start0(db, clock), actions)
    requires RuleIsSlow(db, scope.key, every, cooldown)
    requires StaysSlow(actions, scope.key, every, cooldown) && 0 < every && 0 < cooldown
    ensures var log := Of(Run(Start0(db, clock), actions).accepted, scope);
            && Ordered(log) && Spaced(log, every, cooldown)
            && InWindow(AlertTimes(log), from, width) <= width / (Min(every, cooldown) * SECOND) + 1
  {
    var s := Run(Start0(db, clock), actions);
    var log := Of(s.accepted, scope);
    var gap := Min(every, cooldown) * SECOND;
    StartIsGood(db, clock);
    RunPaced(Start0(db, clock), actions, scope, every, cooldown);
    AlertsApart(log, every, cooldown, gap);
    WindowBound(AlertTimes(log), from, width, gap);
  }

  predicate NeverRepeats(actions: seq<Action>, key: string) {
    forall i :: 0 <= i < |actions| && actions[i].SetRule? && actions[i].key == key ==> actions[i].rule.repeatEvery <= 0
  }

  ghost predicate NoRepeats(s: Sys, scope: Scope) {
    && Shaped(s, scope) && scope.key in s.db.rules && s.db.rules[scope.key].repeatEvery <= 0
    && TriggersOnly(Of(s.accepted, scope))
  }

  ghost predicate TriggersOnly(log: seq<Acceptance>) {
    forall i :: 0 <= i < |log| ==> !log[i].kind.Repeat?
  }

  lemma {:induction false} RunNoRepeats(s: Sys, actions: seq<Action>, scope: Scope)
    requires Good(s) && NoRepeats(s, scope) && Monotone(s, actions) && NeverRepeats(actions, scope.key)
    ensures NoRepeats(Run(s, actions), scope)
  {
    if actions != [] {
      var init, a := actions[..|actions| - 1], actions[|actions| - 1];
      RunNoRepeats(s, init, scope);
      RunIsGood(s, init);
      if a.Enqueue? {
        if ValidEvent(a.event) {
          EnqueueNoRepeats(Run(s, init), a.event, a.now, scope);
        }
      } else {
        OtherNoRepeats(Run(s, init), a, scope);
      }
    }
  }

  lemma OtherNoRepeats(s: Sys, a: Action, scope: Scope)
    requires NoRepeats(s, scope) && !a.Enqueue? && (a.SetRule? && a.key == scope.key ==> a.rule.repeatEvery <= 0)
    ensures NoRepeats(Step(s, a), scope)
  {
    OtherStepsKeepStates(s, a);
  }

  /** A transaction adds no repeat to the log. */
  lemma LogHasNoRepeat(s: Sys, e: Event, now: Time, scope: Scope)
    requires NoRepeats(s, scope)
    ensures var v := VerdictOf(s.db, e, now);
            TriggersOnly(Of(if Accepts(v) then s.accepted + [Acceptance(ScopeOf(e), v, now)] else s.accepted, scope))
  {
    var v, log := VerdictOf(s.db, e, now), Of(s.accepted, scope);
    OfGrows(s.accepted, Acceptance(ScopeOf(e), v, now), scope);
    if ScopeOf(e) == scope {
      NeverDecidesRepeat(s.db.rules[scope.key], StateOf(s.db, scope), e, now, s.db, log);
      assert v == Decide(s.db.rules[scope.key], StateOf(s.db, scope), e, now);
    }
  }

  lemma EnqueueNoRepeats(s: Sys, e: Event, now: Time, scope: Scope)
    requires Good(s) && NoRepeats(s, scope) && s.clock <= now && ValidEvent(e)
    ensures NoRepeats(EnqueueStep(s, e, now), scope)
  {
    EnqueueShaped(s, e, now, scope);
    EnqueueRules(s.db, e, now);
    LogHasNoRepeat(s, e, now, scope);
  }

  lemma NeverDecidesRepeat(rule: Rule, state: State, e: Event, now: Time, db: Db, log: seq<Acceptance>)
    requires rule.repeatEvery <= 0 && Shape(db, state, log)
    ensures !Decide(rule, state, e, now).Repeat?
  {
  }

  /** With a repeat interval of zero or less an active scope never alerts again: alerts are triggers only. */
  lemma NoIntervalNoRepeats(db: Db, clock: Time, actions: seq<Action>, scope: Scope)
    requires Empty(db) && Monotone(Start0(db, clock), actions)
    requires scope.key in db.rules && db.rules[scope.key].repeatEvery <= 0 && NeverRepeats(actions, scope.key)
    ensures TriggersOnly(Of(Run(Start0(db, clock), actions).accepted, scope))
  {
    StartIsGood(db, clock);
    RunNoRepeats(Start0(db, clock), actions, scope);
  }
}
