/** The monitor's steps on its own flags and counters and on the notifier's tables, and what every run of them keeps. */
module Watching {
  import opened Common
  import opened Store
  import opened Alerts
  import Recovery
  import Scopes

  const STOPPED := "docker.container.stopped"
  const UNHEALTHY := "docker.container.unhealthy"
  const RESTARTED := "docker.container.restarted"

  /** The notifier's tables beside the in-memory flags, named key + "|" + subject. */
  datatype Watch = Watch(db: Db, alerted: map<string, bool>)

  function Flag(key: string, subject: string): string {
    key + "|" + subject
  }

  function Alerting(alerted: map<string, bool>, flag: string): bool {
    flag in alerted && alerted[flag]
  }

  function AlertEvent(key: string, severity: string, subject: string): Event {
    Event(key, severity, key + ":" + subject, "", false, subject, false)
  }

  function RecoveryEvent(key: string, subject: string): Event {
    Event(key, "recovery", key + ":" + subject, "", true, subject, false)
  }

  function Emit(db: Db, e: Event, now: Time): Db {
    if ValidEvent(e) then EnqueueTx(db, e, now).0 else db
  }

  function Raised(w: Watch, key: string, severity: string, subject: string, now: Time): Watch {
    Watch(Emit(w.db, AlertEvent(key, severity, subject), now), w.alerted[Flag(key, subject) := true])
  }

  function Cleared(w: Watch, key: string, subject: string, now: Time): Watch {
    var flag := Flag(key, subject);
    Watch(if Alerting(w.alerted, flag) then Emit(w.db, RecoveryEvent(key, subject), now) else w.db, w.alerted - {flag})
  }

  /** The rows seed loads: active per-object states. */
  function ActiveScopes(db: Db): set<Scope> {
    set scope | scope in db.states && scope.subject != "" && db.states[scope].active
  }

  function FlagSet(scopes: set<Scope>): set<string> {
    set scope | scope in scopes :: Flag(scope.key, scope.subject)
  }

  function Flags(scopes: set<Scope>): map<string, bool> {
    map flag | flag in FlagSet(scopes) :: true
  }

  function Seeded(w: Watch): Watch {
    w.(alerted := Flags(ActiveScopes(w.db)))
  }

  // ---- flags and rows agree -----------------------------------------------------------

  /** Every key the monitor uses is free of the separator. */
  predicate Plain(key: string) {
    key != "" && '|' !in key
  }

  lemma FlagsDiffer(key1: string, subject1: string, key2: string, subject2: string)
    requires Plain(key1) && Plain(key2) && Flag(key1, subject1) == Flag(key2, subject2)
    ensures key1 == key2 && subject1 == subject2
  {
    var flag := Flag(key1, subject1);
    assert flag[|key1|] == '|' && flag[|key2|] == '|';
    assert forall i :: 0 <= i < |key1| ==> flag[i] == key1[i];
    assert forall i :: 0 <= i < |key2| ==> flag[i] == key2[i];
    assert |key1| == |key2| && flag[..|key1|] == key1 && flag[..|key2|] == key2;
    assert flag[|key1| + 1..] == subject1 && flag[|key2| + 1..] == subject2;
  }

  ghost predicate FlaggedIfActive(w: Watch, scope: Scope) {
    scope.subject != "" && Plain(scope.key) && StateOf(w.db, scope).active ==>
      Alerting(w.alerted, Flag(scope.key, scope.subject))
  }

  /** A stored active alert about an object is known to the monitor. */
  ghost predicate InStep(w: Watch) {
    forall scope :: FlaggedIfActive(w, scope)
  }

  /** Some object has a stored active alert of that name. */
  ghost predicate Stored(db: Db, flag: string) {
    exists scope: Scope :: scope in db.states && scope.subject != "" && db.states[scope].active
                           && flag == scope.key + "|" + scope.subject
  }

  lemma SeedAgrees(w: Watch)
    ensures InStep(Seeded(w))
    ensures forall flag :: Alerting(Seeded(w).alerted, flag) <==> Stored(w.db, flag)
  {
    forall scope ensures FlaggedIfActive(Seeded(w), scope) {
      if scope.subject != "" && StateOf(w.db, scope).active {
        assert scope in ActiveScopes(w.db);
      }
    }
    forall flag ensures Alerting(Seeded(w).alerted, flag) <==> Stored(w.db, flag) {
      if Stored(w.db, flag) {
        var scope: Scope :| scope in w.db.states && scope.subject != "" && w.db.states[scope].active
                            && flag == scope.key + "|" + scope.subject;
        assert scope in ActiveScopes(w.db);
      }
    }
  }

  lemma RaiseAgrees(w: Watch, key: string, severity: string, subject: string, now: Time)
    requires InStep(w)
    ensures InStep(Raised(w, key, severity, subject, now))
  {
    forall scope ensures FlaggedIfActive(Raised(w, key, severity, subject, now), scope) {
      assert FlaggedIfActive(w, scope);
      Scopes.EnqueueState(w.db, AlertEvent(key, severity, subject), now, scope);
    }
  }

  /** What resolving an object's alert leaves: its row is inactive unless it was active and its rule is disabled,
      and the flags stay in step exactly when the row ends inactive. */
  lemma ResolveOutcome(w: Watch, key: string, subject: string, now: Time)
    requires InStep(w) && Plain(key) && subject != ""
    ensures var w', scope := Cleared(w, key, subject, now), Scope(key, subject);
            var disabled := key in w.db.rules && !w.db.rules[key].enabled;
            && (StateOf(w'.db, scope).active <==> StateOf(w.db, scope).active && disabled)
            && (InStep(w') <==> !StateOf(w'.db, scope).active)
  {
    var w', here := Cleared(w, key, subject, now), Scope(key, subject);
    assert FlaggedIfActive(w, here);
    Scopes.EnqueueState(w.db, RecoveryEvent(key, subject), now, here);
    if !StateOf(w'.db, here).active {
      forall scope ensures FlaggedIfActive(w', scope) {
        assert FlaggedIfActive(w, scope);
        Scopes.EnqueueState(w.db, RecoveryEvent(key, subject), now, scope);
        if scope.subject != "" && Plain(scope.key) && StateOf(w'.db, scope).active && scope != here {
          if Flag(scope.key, scope.subject) == Flag(key, subject) {
            FlagsDiffer(scope.key, scope.subject, key, subject);
          }
        }
      }
    } else {
      assert !FlaggedIfActive(w', here);
    }
  }

  /** Whether the rule of a key is enabled, and its cooldown in seconds; without a rule the default one counts. */
  predicate EnabledIn(db: Db, key: string) {
    key in db.rules ==> db.rules[key].enabled
  }

  function CooldownIn(db: Db, key: string): int {
    if key in db.rules then db.rules[key].cooldown else 600
  }

  /** An alert leaves its row active if it was, or if the rule is enabled and no cooldown runs. */
  predicate BecomesActive(db: Db, scope: Scope, now: Time) {
    var state := StateOf(db, scope);
    || state.active
    || (EnabledIn(db, scope.key)
        && (state.resolvedAt.None? || CooldownIn(db, scope.key) <= 0
            || now >= state.resolvedAt.value + CooldownIn(db, scope.key) * SECOND))
  }

  /** What raising an alert leaves: the flag, and the row of its own scope, active under the scope's own dedup key exactly
      if it was or may become so. */
  lemma RaiseOutcome(w: Watch, key: string, severity: string, subject: string, now: Time)
    requires key != "" && severity != ""
    ensures var w', scope := Raised(w, key, severity, subject, now), Scope(key, subject);
            && Alerting(w'.alerted, key + "|" + subject)
            && (StateOf(w'.db, scope).active <==> BecomesActive(w.db, scope, now))
            && (!StateOf(w.db, scope).active && BecomesActive(w.db, scope, now) ==>
                  && StateOf(w'.db, scope).activeDedupKey == Some(key + ":" + subject)
                  && StateOf(w'.db, scope).lastTriggeredAt == Some(now) && StateOf(w'.db, scope).lastNotifiedAt == Some(now))
            && (forall other :: other != scope ==> StateOf(w'.db, other) == StateOf(w.db, other))
  {
    var w', e := Raised(w, key, severity, subject, now), AlertEvent(key, severity, subject);
    Scopes.EnqueueState(w.db, e, now, Scope(key, subject));
    forall other | other != Scope(key, subject) ensures StateOf(w'.db, other) == StateOf(w.db, other) {
      Scopes.EnqueueState(w.db, e, now, other);
    }
  }

  /** Resolving an alert clears the flag; it sends a recovery, which then resolves an active row under an enabled rule, if
      and only if the flag was set. */
  lemma ResolveSendsIffFlagged(w: Watch, key: string, subject: string, now: Time)
    requires key != ""
    ensures var w', scope := Cleared(w, key, subject, now), Scope(key, subject);
            && !Alerting(w'.alerted, key + "|" + subject)
            && (!Alerting(w.alerted, key + "|" + subject) ==> w'.db == w.db)
            && (Alerting(w.alerted, key + "|" + subject) && StateOf(w.db, scope).active && EnabledIn(w.db, key) ==>
                  !StateOf(w'.db, scope).active && StateOf(w'.db, scope).resolvedAt == Some(now))
            && (forall other :: other != scope ==> StateOf(w'.db, other) == StateOf(w.db, other))
  {
    var w', e := Cleared(w, key, subject, now), RecoveryEvent(key, subject);
    Scopes.EnqueueState(w.db, e, now, Scope(key, subject));
    forall other | other != Scope(key, subject) ensures StateOf(w'.db, other) == StateOf(w.db, other) {
      Scopes.EnqueueState(w.db, e, now, other);
    }
  }

  /** The dedup key of everything the monitor says about one object. */
  function KeyOf(scope: Scope): string {
    scope.key + ":" + scope.subject
  }

  /** The monitor's events meet what the completeness of recoveries asks for: each scope has one key, and an alert and its
      recovery carry it. */
  lemma MonitorKeysFit(key: string, severity: string, subject: string)
    ensures Recovery.CarriesKey(AlertEvent(key, severity, subject), KeyOf)
    ensures Recovery.CarriesKey(RecoveryEvent(key, subject), KeyOf)
    ensures ScopeOf(AlertEvent(key, severity, subject)) == ScopeOf(RecoveryEvent(key, subject)) == Scope(key, subject)
    ensures AlertEvent(key, severity, subject).dedupKey == RecoveryEvent(key, subject).dedupKey == KeyOf(Scope(key, subject))
    ensures !AlertEvent(key, severity, subject).recovery && RecoveryEvent(key, subject).recovery
  {
  }

  /** Resolving the per-rule alert touches no object's row or flag. */
  lemma ResolveWholeRule(w: Watch, key: string, now: Time)
    requires InStep(w) && Plain(key)
    ensures InStep(Cleared(w, key, "", now))
  {
    var w' := Cleared(w, key, "", now);
    forall scope ensures FlaggedIfActive(w', scope) {
      assert FlaggedIfActive(w, scope);
      Scopes.EnqueueState(w.db, RecoveryEvent(key, ""), now, scope);
      if scope.subject != "" && Plain(scope.key) && Flag(scope.key, scope.subject) == Flag(key, "") {
        FlagsDiffer(scope.key, scope.subject, key, "");
      }
    }
  }

  // ---- runs ---------------------------------------------------------------------------

  datatype Act =
    | Raise(key: string, severity: string, subject: string, now: Time)
    | Resolve(key: string, subject: string, now: Time)
    | Seed
    | Elsewhere(db: Db)

  function Apply(w: Watch, a: Act): Watch {
    match a
    case Raise(key, severity, subject, now) => Raised(w, key, severity, subject, now)
    case Resolve(key, subject, now) => Cleared(w, key, subject, now)
    case Seed => Seeded(w)
    case Elsewhere(db) => w.(db := db)
  }

  function ApplyAll(w: Watch, acts: seq<Act>): Watch {
    if acts == [] then w else Apply(ApplyAll(w, acts[..|acts| - 1]), acts[|acts| - 1])
  }

  /** Somebody made an object's alert active. */
  ghost predicate Activates(db: Db, db': Db) {
    exists scope: Scope :: scope.subject != "" && StateOf(db', scope).active && !StateOf(db, scope).active
  }

  ghost predicate Allowed(w: Watch, a: Act) {
    match a
    case Resolve(key, subject, _) => Plain(key) && RuleOf(w.db, RecoveryEvent(key, subject)).enabled
    case Elsewhere(db) => !Activates(w.db, db)
    case _ => true
  }

  ghost predicate AllAllowed(w: Watch, acts: seq<Act>) {
    acts != [] ==> AllAllowed(w, acts[..|acts| - 1]) && Allowed(ApplyAll(w, acts[..|acts| - 1]), acts[|acts| - 1])
  }

  lemma ActAgrees(w: Watch, a: Act)
    requires InStep(w) && Allowed(w, a)
    ensures InStep(Apply(w, a))
  {
    match a
    case Raise(key, severity, subject, now) => RaiseAgrees(w, key, severity, subject, now);
    case Resolve(key, subject, now) =>
      if subject == "" {
        ResolveWholeRule(w, key, now);
      } else {
        ResolveOutcome(w, key, subject, now);
      }
    case Seed => SeedAgrees(w);
    case Elsewhere(db) =>
      forall scope ensures FlaggedIfActive(Apply(w, a), scope) {
        assert FlaggedIfActive(w, scope);
      }
  }

  /** Monitor and store agree over every run of raises, resolves, restarts and other goroutines' transactions,
      from a restart on, as long as each rule is enabled when its alert is resolved. */
  lemma {:induction false} MonitorStaysInStep(w: Watch, acts: seq<Act>)
    requires AllAllowed(Seeded(w), acts)
    ensures InStep(ApplyAll(Seeded(w), acts))
  {
    if acts == [] {
      SeedAgrees(w);
    } else {
      MonitorStaysInStep(w, acts[..|acts| - 1]);
      ActAgrees(ApplyAll(Seeded(w), acts[..|acts| - 1]), acts[|acts| - 1]);
    }
  }

  /** So an object whose alert is resolved always ends inactive, whatever was lost in the restarts before. */
  lemma ResolvedObjectIsInactive(w: Watch, acts: seq<Act>, key: string, subject: string, now: Time)
    requires AllAllowed(Seeded(w), acts) && Allowed(ApplyAll(Seeded(w), acts), Resolve(key, subject, now))
    requires subject != ""
    ensures !StateOf(Cleared(ApplyAll(Seeded(w), acts), key, subject, now).db, Scope(key, subject)).active
  {
    MonitorStaysInStep(w, acts);
    ResolveOutcome(ApplyAll(Seeded(w), acts), key, subject, now);
  }
}
