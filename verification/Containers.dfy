/** One Docker poll of the monitor, and what the outstanding alerts say about any sequence of polls. */
module Containers {
  import opened Common
  import opened Store
  import opened Alerts
  import opened Watching
  import Decimal
  import Fanout
  import Recovery
  import Scopes

  datatype Container = Container(name: string, state: string, health: string)

  /** What one poll sees: the listed containers, the ignored names, and the clock at each event it may emit. */
  datatype Poll = Poll(list: seq<Container>, ignore: seq<string>, clock: nat -> Time)

  // ---- one container --------------------------------------------------------------------

  predicate Running(c: Container) {
    c.state == "running"
  }

  /** Seen up in the last poll and down in this one. */
  predicate StopSeen(known: map<string, string>, c: Container) {
    && c.name in known && (known[c.name] == "running" || known[c.name] == "restarting")
    && (c.state == "exited" || c.state == "dead")
  }

  predicate RestartSeen(known: map<string, string>, c: Container) {
    c.state == "restarting" && !(c.name in known && known[c.name] == "restarting")
  }

  function RestartEvent(name: string, now: Time): Event {
    Event(RESTARTED, "warning", RESTARTED + ":" + name + ":" + Decimal.Show(now), "", false, "", true)
  }

  function Transition(w: Watch, known: map<string, string>, c: Container, now: Time): Watch {
    if Running(c) then Cleared(w, STOPPED, c.name, now)
    else if StopSeen(known, c) then Raised(w, STOPPED, "error", c.name, now)
    else w
  }

  function Restart(w: Watch, known: map<string, string>, c: Container, now: Time): Watch {
    if RestartSeen(known, c) then w.(db := Emit(w.db, RestartEvent(c.name, now), now)) else w
  }

  function Health(w: Watch, c: Container, now: Time): Watch {
    if !Running(c) then w
    else if c.health == "unhealthy" then Raised(w, UNHEALTHY, "critical", c.name, now)
    else Cleared(w, UNHEALTHY, c.name, now)
  }

  function Observe(w: Watch, known: map<string, string>, c: Container, clock: nat -> Time, i: nat): Watch {
    Health(Restart(Transition(w, known, c, clock(3 * i)), known, c, clock(3 * i + 1)), c, clock(3 * i + 2))
  }

  // ---- one poll -----------------------------------------------------------------------

  function ObserveAll(w: Watch, known: map<string, string>, list: seq<Container>, ignore: seq<string>, clock: nat -> Time): Watch {
    if list == [] then w
    else
      var n := |list| - 1;
      var before := ObserveAll(w, known, list[..n], ignore, clock);
      if list[n].name in ignore then before else Observe(before, known, list[n], clock, n)
  }

  /** The states remembered for the next poll. */
  function Current(list: seq<Container>, ignore: seq<string>): map<string, string> {
    if list == [] then map[]
    else
      var n := |list| - 1;
      if list[n].name in ignore then Current(list[..n], ignore)
      else Current(list[..n], ignore)[list[n].name := list[n].state]
  }

  /** The watched container of that name, if the poll lists one. */
  function Find(list: seq<Container>, ignore: seq<string>, name: string): Option<Container> {
    if list == [] then None
    else
      var n := |list| - 1;
      if list[n].name == name && name !in ignore then Some(list[n]) else Find(list[..n], ignore, name)
  }

  ghost predicate DistinctNames(list: seq<Container>) {
    forall i, j :: 0 <= i < j < |list| ==> list[i].name != list[j].name
  }

  predicate Outstanding(w: Watch, key: string, name: string) {
    Alerting(w.alerted, Flag(key, name))
  }

  lemma FlagApart(key: string, name: string, key': string, name': string)
    requires key in {STOPPED, UNHEALTHY} && key' in {STOPPED, UNHEALTHY}
    ensures Flag(key, name) == Flag(key', name') <==> key == key' && name == name'
  {
    assert Plain(STOPPED) && Plain(UNHEALTHY);
    if Flag(key, name) == Flag(key', name') {
      FlagsDiffer(key, name, key', name');
    }
  }

  lemma ObserveFlags(w: Watch, known: map<string, string>, c: Container, clock: nat -> Time, i: nat, name: string)
    ensures var w' := Observe(w, known, c, clock, i);
            && Outstanding(w', STOPPED, name) ==
                 (if name != c.name then Outstanding(w, STOPPED, name)
                  else !Running(c) && (Outstanding(w, STOPPED, name) || StopSeen(known, c)))
            && Outstanding(w', UNHEALTHY, name) ==
                 (if name == c.name && Running(c) then c.health == "unhealthy" else Outstanding(w, UNHEALTHY, name))
  {
    FlagApart(STOPPED, name, STOPPED, c.name);
    FlagApart(UNHEALTHY, name, UNHEALTHY, c.name);
    FlagApart(STOPPED, name, UNHEALTHY, c.name);
    FlagApart(UNHEALTHY, name, STOPPED, c.name);
  }

  lemma {:induction false} FindIsUnique(list: seq<Container>, ignore: seq<string>, name: string)
    ensures Find(list, ignore, name).Some? ==>
              exists k :: 0 <= k < |list| && list[k].name == name && list[k] == Find(list, ignore, name).value
    ensures name in Current(list, ignore) <==> Find(list, ignore, name).Some?
    ensures name in Current(list, ignore) ==> Current(list, ignore)[name] == Find(list, ignore, name).value.state
  {
    if list != [] {
      var n := |list| - 1;
      FindIsUnique(list[..n], ignore, name);
      if Find(list[..n], ignore, name).Some? {
        var k :| 0 <= k < n && list[..n][k].name == name && list[..n][k] == Find(list[..n], ignore, name).value;
        assert list[k].name == name;
      }
    }
  }

  /** Which alerts about a container are outstanding after a poll: a running container has no "stopped" alert and is
      "unhealthy" exactly when Docker says so; one that is down gets a "stopped" alert exactly when it was up in the
      last poll, else keeps what it had; one that is not listed, or ignored, keeps both. */
  lemma {:induction false} PollReports(w: Watch, known: map<string, string>, list: seq<Container>, ignore: seq<string>,
                                       clock: nat -> Time, name: string)
    requires DistinctNames(list)
    ensures var w', found := ObserveAll(w, known, list, ignore, clock), Find(list, ignore, name);
            && Outstanding(w', STOPPED, name) ==
                 (if found.None? then Outstanding(w, STOPPED, name)
                  else !Running(found.value) && (Outstanding(w, STOPPED, name) || StopSeen(known, found.value)))
            && Outstanding(w', UNHEALTHY, name) ==
                 (if found.Some? && Running(found.value) then found.value.health == "unhealthy"
                  else Outstanding(w, UNHEALTHY, name))
  {
    if list != [] {
      var n := |list| - 1;
      PollReports(w, known, list[..n], ignore, clock, name);
      if list[n].name !in ignore {
        ObserveFlags(ObserveAll(w, known, list[..n], ignore, clock), known, list[n], clock, n, name);
      }
      if list[n].name == name {
        FindIsUnique(list[..n], ignore, name);
        assert Find(list[..n], ignore, name).None?;
      }
    }
  }

  // ---- the stored alerts --------------------------------------------------------------

  predicate RulesOn(db: Db) {
    (STOPPED in db.rules ==> db.rules[STOPPED].enabled) && (UNHEALTHY in db.rules ==> db.rules[UNHEALTHY].enabled)
  }

  lemma EmitKeepsRules(db: Db, e: Event, now: Time)
    requires RulesOn(db)
    ensures RulesOn(Emit(db, e, now))
  {
    if ValidEvent(e) {
      Scopes.EnqueueRules(db, e, now);
    }
  }

  ghost predicate Settled(w: Watch) {
    InStep(w) && RulesOn(w.db)
  }

  lemma RaiseSettles(w: Watch, key: string, severity: string, subject: string, now: Time)
    requires Settled(w)
    ensures Settled(Raised(w, key, severity, subject, now))
  {
    RaiseAgrees(w, key, severity, subject, now);
    EmitKeepsRules(w.db, AlertEvent(key, severity, subject), now);
  }

  lemma ClearSettles(w: Watch, key: string, subject: string, now: Time)
    requires Settled(w) && key in {STOPPED, UNHEALTHY}
    ensures Settled(Cleared(w, key, subject, now))
  {
    assert Plain(STOPPED) && Plain(UNHEALTHY);
    if subject == "" {
      ResolveWholeRule(w, key, now);
    } else {
      ResolveOutcome(w, key, subject, now);
    }
    EmitKeepsRules(w.db, RecoveryEvent(key, subject), now);
  }

  lemma RestartSettles(w: Watch, name: string, now: Time)
    requires Settled(w)
    ensures Settled(w.(db := Emit(w.db, RestartEvent(name, now), now)))
  {
    var e := RestartEvent(name, now);
    var w' := w.(db := Emit(w.db, e, now));
    EmitKeepsRules(w.db, e, now);
    forall scope ensures FlaggedIfActive(w', scope) {
      assert FlaggedIfActive(w, scope);
      Scopes.EnqueueState(w.db, e, now, scope);
    }
  }

  lemma ObserveSettles(w: Watch, known: map<string, string>, c: Container, clock: nat -> Time, i: nat)
    requires Settled(w)
    ensures Settled(Observe(w, known, c, clock, i))
  {
    var t0, t1, t2 := clock(3 * i), clock(3 * i + 1), clock(3 * i + 2);
    if Running(c) {
      ClearSettles(w, STOPPED, c.name, t0);
    } else {
      RaiseSettles(w, STOPPED, "error", c.name, t0);
    }
    var w1 := Transition(w, known, c, t0);
    RestartSettles(w1, c.name, t1);
    var w2 := Restart(w1, known, c, t1);
    RaiseSettles(w2, UNHEALTHY, "critical", c.name, t2);
    ClearSettles(w2, UNHEALTHY, c.name, t2);
  }

  lemma {:induction false} PollSettles(w: Watch, known: map<string, string>, list: seq<Container>, ignore: seq<string>, clock: nat -> Time)
    requires Settled(w)
    ensures Settled(ObserveAll(w, known, list, ignore, clock))
  {
    if list != [] {
      var n := |list| - 1;
      PollSettles(w, known, list[..n], ignore, clock);
      ObserveSettles(ObserveAll(w, known, list[..n], ignore, clock), known, list[n], clock, n);
    }
  }

  /** After any poll with both rules enabled, no running container has a stored "stopped" alert, and none that is
      healthy a stored "unhealthy" one. */
  lemma RunningMeansRecovered(w: Watch, known: map<string, string>, list: seq<Container>, ignore: seq<string>,
                              clock: nat -> Time, name: string)
    requires Settled(w) && DistinctNames(list) && name != ""
    requires var found := Find(list, ignore, name); found.Some? && Running(found.value)
    ensures var db' := ObserveAll(w, known, list, ignore, clock).db;
            && !StateOf(db', Scope(STOPPED, name)).active
            && (Find(list, ignore, name).value.health != "unhealthy" ==> !StateOf(db', Scope(UNHEALTHY, name)).active)
  {
    var w' := ObserveAll(w, known, list, ignore, clock);
    PollSettles(w, known, list, ignore, clock);
    PollReports(w, known, list, ignore, clock, name);
    assert Plain(STOPPED) && Plain(UNHEALTHY);
    assert FlaggedIfActive(w', Scope(STOPPED, name)) && FlaggedIfActive(w', Scope(UNHEALTHY, name));
  }

  // ---- what a poll stores -------------------------------------------------------------

  lemma EmitKeepsRuling(db: Db, e: Event, now: Time, key: string)
    ensures EnabledIn(Emit(db, e, now), key) == EnabledIn(db, key) && CooldownIn(Emit(db, e, now), key) == CooldownIn(db, key)
  {
    if ValidEvent(e) {
      Scopes.EnqueueRules(db, e, now);
    }
  }

  lemma EmitKeepsRow(db: Db, e: Event, now: Time, scope: Scope)
    requires scope != ScopeOf(e)
    ensures StateOf(Emit(db, e, now), scope) == StateOf(db, scope)
  {
    Scopes.EnqueueState(db, e, now, scope);
  }

  /** A row of this scope, and the rule that goes with it. */
  ghost predicate SameRow(db: Db, db': Db, scope: Scope) {
    StateOf(db', scope) == StateOf(db, scope) && EnabledIn(db', scope.key) == EnabledIn(db, scope.key)
    && CooldownIn(db', scope.key) == CooldownIn(db, scope.key)
  }

  lemma EmitKeepsOther(db: Db, e: Event, now: Time, scope: Scope)
    requires scope != ScopeOf(e)
    ensures SameRow(db, Emit(db, e, now), scope)
  {
    EmitKeepsRow(db, e, now, scope);
    EmitKeepsRuling(db, e, now, scope.key);
  }

  lemma TransitionKeeps(w: Watch, known: map<string, string>, c: Container, now: Time, scope: Scope)
    requires scope != Scope(STOPPED, c.name)
    ensures SameRow(w.db, Transition(w, known, c, now).db, scope)
  {
    EmitKeepsOther(w.db, RecoveryEvent(STOPPED, c.name), now, scope);
    EmitKeepsOther(w.db, AlertEvent(STOPPED, "error", c.name), now, scope);
  }

  lemma RestartKeeps(w: Watch, known: map<string, string>, c: Container, now: Time, scope: Scope)
    requires scope.subject != ""
    ensures SameRow(w.db, Restart(w, known, c, now).db, scope)
    ensures Restart(w, known, c, now).alerted == w.alerted
  {
    EmitKeepsOther(w.db, RestartEvent(c.name, now), now, scope);
  }

  lemma HealthKeeps(w: Watch, c: Container, now: Time, scope: Scope)
    requires scope != Scope(UNHEALTHY, c.name)
    ensures SameRow(w.db, Health(w, c, now).db, scope)
  {
    EmitKeepsOther(w.db, RecoveryEvent(UNHEALTHY, c.name), now, scope);
    EmitKeepsOther(w.db, AlertEvent(UNHEALTHY, "critical", c.name), now, scope);
  }

  /** A container leaves the rows of others alone. */
  lemma ObserveKeeps(w: Watch, known: map<string, string>, c: Container, clock: nat -> Time, i: nat, scope: Scope)
    requires scope.subject != "" && scope.subject != c.name
    ensures SameRow(w.db, Observe(w, known, c, clock, i).db, scope)
  {
    var w1 := Transition(w, known, c, clock(3 * i));
    var w2 := Restart(w1, known, c, clock(3 * i + 1));
    TransitionKeeps(w, known, c, clock(3 * i), scope);
    RestartKeeps(w1, known, c, clock(3 * i + 1), scope);
    HealthKeeps(w2, c, clock(3 * i + 2), scope);
  }

  lemma {:induction false} PollKeeps(w: Watch, known: map<string, string>, list: seq<Container>, ignore: seq<string>,
                                     clock: nat -> Time, scope: Scope)
    requires scope.subject != "" && forall i :: 0 <= i < |list| ==> list[i].name != scope.subject
    ensures SameRow(w.db, ObserveAll(w, known, list, ignore, clock).db, scope)
  {
    if list != [] {
      var n := |list| - 1;
      PollKeeps(w, known, list[..n], ignore, clock, scope);
      ObserveKeeps(ObserveAll(w, known, list[..n], ignore, clock), known, list[n], clock, n, scope);
    }
  }

  /** Up in the last poll and down now, as Docker names the states. */
  predicate WentDown(known: map<string, string>, c: Container) {
    && c.name in known && known[c.name] in {"running", "restarting"} && c.state in {"exited", "dead"}
  }

  /** The stored alerts about the container itself. */
  lemma ObserveStores(w: Watch, known: map<string, string>, c: Container, clock: nat -> Time, i: nat)
    requires Settled(w) && c.name != ""
    ensures var db', stopped, unhealthy := Observe(w, known, c, clock, i).db, Scope(STOPPED, c.name), Scope(UNHEALTHY, c.name);
            && (StateOf(db', stopped).active <==>
                  if c.state == "running" then false
                  else if WentDown(known, c) then BecomesActive(w.db, stopped, clock(3 * i)) else StateOf(w.db, stopped).active)
            && (StateOf(db', unhealthy).active <==>
                  if c.state != "running" then StateOf(w.db, unhealthy).active
                  else c.health == "unhealthy" && BecomesActive(w.db, unhealthy, clock(3 * i + 2)))
  {
    var t0, t1, t2 := clock(3 * i), clock(3 * i + 1), clock(3 * i + 2);
    var stopped, unhealthy := Scope(STOPPED, c.name), Scope(UNHEALTHY, c.name);
    var w1 := Transition(w, known, c, t0);
    var w2 := Restart(w1, known, c, t1);
    TransitionStores(w, known, c, t0);
    TransitionKeeps(w, known, c, t0, unhealthy);
    RestartKeeps(w1, known, c, t1, stopped);
    RestartKeeps(w1, known, c, t1, unhealthy);
    HealthKeeps(w2, c, t2, stopped);
    TransitionSettles(w, known, c, t0);
    RestartSettles(w1, c.name, t1);
    HealthStores(w2, c, t2);
  }

  lemma TransitionSettles(w: Watch, known: map<string, string>, c: Container, now: Time)
    requires Settled(w)
    ensures Settled(Transition(w, known, c, now))
  {
    ClearSettles(w, STOPPED, c.name, now);
    RaiseSettles(w, STOPPED, "error", c.name, now);
  }

  lemma TransitionStores(w: Watch, known: map<string, string>, c: Container, now: Time)
    requires Settled(w) && c.name != ""
    ensures var scope := Scope(STOPPED, c.name);
            StateOf(Transition(w, known, c, now).db, scope).active <==>
              if c.state == "running" then false
              else if WentDown(known, c) then BecomesActive(w.db, scope, now) else StateOf(w.db, scope).active
  {
    assert Plain(STOPPED);
    ResolveOutcome(w, STOPPED, c.name, now);
    RaiseOutcome(w, STOPPED, "error", c.name, now);
  }

  lemma HealthStores(w: Watch, c: Container, now: Time)
    requires Settled(w) && c.name != ""
    ensures var scope := Scope(UNHEALTHY, c.name);
            StateOf(Health(w, c, now).db, scope).active <==>
              if c.state != "running" then StateOf(w.db, scope).active
              else c.health == "unhealthy" && BecomesActive(w.db, scope, now)
  {
    assert Plain(UNHEALTHY);
    ResolveOutcome(w, UNHEALTHY, c.name, now);
    RaiseOutcome(w, UNHEALTHY, "critical", c.name, now);
  }

  /** The alerts stored about a listed container after a poll: "stopped" is inactive when it runs, becomes active when it
      went down since the last poll, unless a cooldown runs, and else is as before; "unhealthy" becomes active when it runs
      and Docker says so, unless a cooldown runs, is inactive when it runs otherwise, and else is as before. */
  lemma {:induction false} PollStores(w: Watch, known: map<string, string>, list: seq<Container>, ignore: seq<string>,
                                      clock: nat -> Time, k: nat)
    requires Settled(w) && DistinctNames(list) && k < |list| && list[k].name !in ignore && list[k].name != ""
    ensures var db', c := ObserveAll(w, known, list, ignore, clock).db, list[k];
            var stopped, unhealthy := Scope(STOPPED, c.name), Scope(UNHEALTHY, c.name);
            && (StateOf(db', stopped).active <==>
                  if c.state == "running" then false
                  else if WentDown(known, c) then BecomesActive(w.db, stopped, clock(3 * k)) else StateOf(w.db, stopped).active)
            && (StateOf(db', unhealthy).active <==>
                  if c.state != "running" then StateOf(w.db, unhealthy).active
                  else c.health == "unhealthy" && BecomesActive(w.db, unhealthy, clock(3 * k + 2)))
  {
    var n, c := |list| - 1, list[k];
    var before := ObserveAll(w, known, list[..n], ignore, clock);
    if k == n {
      PollKeeps(w, known, list[..n], ignore, clock, Scope(STOPPED, c.name));
      PollKeeps(w, known, list[..n], ignore, clock, Scope(UNHEALTHY, c.name));
      PollSettles(w, known, list[..n], ignore, clock);
      ObserveStores(before, known, c, clock, n);
    } else {
      PollStores(w, known, list[..n], ignore, clock, k);
      ObserveKeeps(before, known, list[n], clock, n, Scope(STOPPED, c.name));
      ObserveKeeps(before, known, list[n], clock, n, Scope(UNHEALTHY, c.name));
    }
  }

  /** The tables after one transaction with the event of these columns. */
  function After(db: Db, key: string, severity: string, dedupKey: string, recovery: bool, subject: string, instant: bool, now: Time): Db {
    EnqueueTx(db, Event(key, severity, dedupKey, "", recovery, subject, instant), now).0
  }

  /** What the monitor says when a container stops or runs again, column by column. */
  lemma StopReports(w: Watch, known: map<string, string>, c: Container, now: Time)
    ensures Transition(w, known, c, now).db ==
              if c.state == "running" && Alerting(w.alerted, "docker.container.stopped|" + c.name)
              then After(w.db, "docker.container.stopped", "recovery", "docker.container.stopped:" + c.name, true, c.name, false, now)
              else if WentDown(known, c)
              then After(w.db, "docker.container.stopped", "error", "docker.container.stopped:" + c.name, false, c.name, false, now)
              else w.db
  {
    assert STOPPED + ":" == "docker.container.stopped:" && STOPPED + "|" == "docker.container.stopped|";
    assert RecoveryEvent(STOPPED, c.name) ==
           Event("docker.container.stopped", "recovery", "docker.container.stopped:" + c.name, "", true, c.name, false);
    assert AlertEvent(STOPPED, "error", c.name) ==
           Event("docker.container.stopped", "error", "docker.container.stopped:" + c.name, "", false, c.name, false);
  }

  /** When it restarts. */
  lemma RestartReports(w: Watch, known: map<string, string>, c: Container, now: Time)
    ensures Restart(w, known, c, now).db ==
              if c.state == "restarting" && !(c.name in known && known[c.name] == "restarting")
              then After(w.db, "docker.container.restarted", "warning", RestartKey(c.name, now), false, "", true, now) else w.db
  {
    RestartKeyIs(c.name, now);
    assert RestartEvent(c.name, now) ==
           Event("docker.container.restarted", "warning", RestartKey(c.name, now), "", false, "", true);
  }

  /** And about its health. */
  lemma HealthReports(w: Watch, c: Container, now: Time)
    ensures Health(w, c, now).db ==
              if c.state == "running" && c.health == "unhealthy"
              then After(w.db, "docker.container.unhealthy", "critical", "docker.container.unhealthy:" + c.name, false, c.name, false, now)
              else if c.state == "running" && Alerting(w.alerted, "docker.container.unhealthy|" + c.name)
              then After(w.db, "docker.container.unhealthy", "recovery", "docker.container.unhealthy:" + c.name, true, c.name, false, now)
              else w.db
  {
    assert UNHEALTHY + ":" == "docker.container.unhealthy:" && UNHEALTHY + "|" == "docker.container.unhealthy|";
    assert RecoveryEvent(UNHEALTHY, c.name) ==
           Event("docker.container.unhealthy", "recovery", "docker.container.unhealthy:" + c.name, "", true, c.name, false);
    assert AlertEvent(UNHEALTHY, "critical", c.name) ==
           Event("docker.container.unhealthy", "critical", "docker.container.unhealthy:" + c.name, "", false, c.name, false);
  }

  // ---- restarts -----------------------------------------------------------------------

  /** The dedup key of a restart seen at a clock reading. */
  function RestartKey(name: string, t: Time): string {
    "docker.container.restarted:" + name + ":" + Decimal.Show(t)
  }

  lemma RestartKeyIs(name: string, t: Time)
    ensures RestartEvent(name, t).dedupKey == RestartKey(name, t)
  {
    assert RESTARTED + ":" == "docker.container.restarted:";
  }

  lemma RestartKeysDiffer(name: string, t: Time, name': string, t': Time)
    requires RestartKey(name, t) == RestartKey(name', t')
    ensures name == name' && t == t'
  {
    var p, q := "docker.container.restarted:" + name, "docker.container.restarted:" + name';
    Decimal.StampSplits(p, q, t, t');
    assert name == p[27..] == q[27..] == name';
  }

  /** No alert or recovery about a container is inserted under such a key. */
  lemma NoRestartKey(key: string, name: string, rest: string, other: string, t: Time)
    requires key in {STOPPED, UNHEALTHY}
    ensures key + ":" + name + rest != RestartKey(other, t)
  {
    assert (key + ":" + name + rest)[17] == key[17] != 'r';
    assert RestartKey(other, t)[17] == 'r';
  }

  /** A transaction takes at most the key it inserts under, which starts with the event's own. */
  lemma EmitTakes(db: Db, e: Event, now: Time, key: string)
    requires WellFormed(db)
    ensures WellFormed(Emit(db, e, now))
    ensures Fanout.KeyTaken(db, key) ==> Fanout.KeyTaken(Emit(db, e, now), key)
    ensures Fanout.KeyTaken(Emit(db, e, now), key) && !Fanout.KeyTaken(db, key) ==> key == KeyFor(VerdictOf(db, e, now), e, now)
  {
    if ValidEvent(e) {
      EnqueueEffect(db, e, now);
      EffectTakes(db, EnqueueTx(db, e, now).0, e, now, key);
    }
  }

  lemma EffectTakes(db: Db, db': Db, e: Event, now: Time, key: string)
    requires WellFormed(db) && Effect(db, db', e, now)
    ensures WellFormed(db')
    ensures Fanout.KeyTaken(db, key) ==> Fanout.KeyTaken(db', key)
    ensures Fanout.KeyTaken(db', key) && !Fanout.KeyTaken(db, key) ==> key == KeyFor(VerdictOf(db, e, now), e, now)
  {
    EffectKeepsWellFormed(db, db', e, now);
    EffectKeepsNames(db, db', e, now);
    if Fanout.KeyTaken(db, key) {
      Fanout.KeysStay(db, db', e, now, key);
    } else if Fanout.KeyTaken(db', key) {
      var id :| id in db'.events && db'.events[id].dedupKey == key;
      assert id !in db.events;
    }
  }

  /** Alerts and recoveries about a container leave these keys as they are. */
  lemma ContainerEventTakesNone(db: Db, e: Event, now: Time, name: string, t: Time)
    requires WellFormed(db) && e.key in {STOPPED, UNHEALTHY} && e.dedupKey == e.key + ":" + e.subject
    ensures WellFormed(Emit(db, e, now))
    ensures Fanout.KeyTaken(Emit(db, e, now), RestartKey(name, t)) <==> Fanout.KeyTaken(db, RestartKey(name, t))
  {
    EmitTakes(db, e, now, RestartKey(name, t));
    var key := KeyFor(VerdictOf(db, e, now), e, now);
    Recovery.KeyForExtends(VerdictOf(db, e, now), e, now);
    NoRestartKey(e.key, e.subject, key[|e.dedupKey|..], name, t);
    assert key == e.dedupKey + key[|e.dedupKey|..];
  }

  lemma RestartTakes(db: Db, seen: string, now: Time, name: string, t: Time)
    requires WellFormed(db) && EnabledIn(db, RESTARTED)
    ensures var db' := Emit(db, RestartEvent(seen, now), now);
            && WellFormed(db')
            && (Fanout.KeyTaken(db', RestartKey(name, t)) <==> Fanout.KeyTaken(db, RestartKey(name, t)) || (name == seen && t == now))
  {
    var e := RestartEvent(seen, now);
    RestartKeyIs(seen, now);
    EmitTakes(db, e, now, RestartKey(name, t));
    assert VerdictOf(db, e, now).OneShot?;
    if RestartKey(name, t) == RestartKey(seen, now) {
      RestartKeysDiffer(name, t, seen, now);
    }
    OneShotTakes(db, e, now);
  }

  lemma OneShotTakes(db: Db, e: Event, now: Time)
    requires WellFormed(db) && VerdictOf(db, e, now).OneShot?
    ensures Fanout.KeyTaken(EnqueueTx(db, e, now).0, e.dedupKey)
  {
    CreateEffect(WithRule(db, e), e, RuleOf(db, e).severity, e.dedupKey, now, None);
  }

  /** Tables in which restarts are reported. */
  ghost predicate Reporting(db: Db) {
    WellFormed(db) && EnabledIn(db, RESTARTED)
  }

  lemma TransitionTakesNone(w: Watch, known: map<string, string>, c: Container, now: Time, name: string, t: Time)
    requires Reporting(w.db)
    ensures var db' := Transition(w, known, c, now).db;
            Reporting(db') && (Fanout.KeyTaken(db', RestartKey(name, t)) <==> Fanout.KeyTaken(w.db, RestartKey(name, t)))
  {
    TransitionKeeps(w, known, c, now, Scope(RESTARTED, "-"));
    if Running(c) {
      ContainerEventTakesNone(w.db, RecoveryEvent(STOPPED, c.name), now, name, t);
    } else {
      ContainerEventTakesNone(w.db, AlertEvent(STOPPED, "error", c.name), now, name, t);
    }
  }

  lemma HealthTakesNone(w: Watch, c: Container, now: Time, name: string, t: Time)
    requires Reporting(w.db)
    ensures var db' := Health(w, c, now).db;
            Reporting(db') && (Fanout.KeyTaken(db', RestartKey(name, t)) <==> Fanout.KeyTaken(w.db, RestartKey(name, t)))
  {
    HealthKeeps(w, c, now, Scope(RESTARTED, "-"));
    if c.health == "unhealthy" {
      ContainerEventTakesNone(w.db, AlertEvent(UNHEALTHY, "critical", c.name), now, name, t);
    } else {
      ContainerEventTakesNone(w.db, RecoveryEvent(UNHEALTHY, c.name), now, name, t);
    }
  }

  lemma RestartStepTakes(w: Watch, known: map<string, string>, c: Container, now: Time, name: string, t: Time)
    requires Reporting(w.db)
    ensures var db' := Restart(w, known, c, now).db;
            && Reporting(db')
            && (Fanout.KeyTaken(db', RestartKey(name, t)) <==>
                  || Fanout.KeyTaken(w.db, RestartKey(name, t))
                  || (c.state == "restarting" && !(c.name in known && known[c.name] == "restarting") && c.name == name && now == t))
  {
    RestartKeeps(w, known, c, now, Scope(RESTARTED, "-"));
    RestartTakes(w.db, c.name, now, name, t);
  }

  lemma ObserveRestarts(w: Watch, known: map<string, string>, c: Container, clock: nat -> Time, i: nat, name: string, t: Time)
    requires Reporting(w.db)
    ensures var db' := Observe(w, known, c, clock, i).db;
            && Reporting(db')
            && (Fanout.KeyTaken(db', RestartKey(name, t)) <==>
                  || Fanout.KeyTaken(w.db, RestartKey(name, t))
                  || (c.state == "restarting" && !(c.name in known && known[c.name] == "restarting")
                      && c.name == name && clock(3 * i + 1) == t))
  {
    var w1 := Transition(w, known, c, clock(3 * i));
    var w2 := Restart(w1, known, c, clock(3 * i + 1));
    TransitionTakesNone(w, known, c, clock(3 * i), name, t);
    RestartStepTakes(w1, known, c, clock(3 * i + 1), name, t);
    HealthTakesNone(w2, c, clock(3 * i + 2), name, t);
  }

  /** A poll sees, at this clock reading, a container restarting that was not restarting in the last poll. */
  predicate RestartAt(known: map<string, string>, list: seq<Container>, ignore: seq<string>, clock: nat -> Time, i: nat,
                      name: string, t: Time) {
    && i < |list| && list[i].name == name && name !in ignore && clock(3 * i + 1) == t
    && list[i].state == "restarting" && !(name in known && known[name] == "restarting")
  }

  ghost predicate RestartShown(known: map<string, string>, list: seq<Container>, ignore: seq<string>, clock: nat -> Time,
                               name: string, t: Time) {
    exists i :: RestartAt(known, list, ignore, clock, i, name, t)
  }

  lemma RestartShownGrows(known: map<string, string>, list: seq<Container>, ignore: seq<string>, clock: nat -> Time,
                          name: string, t: Time)
    requires list != []
    ensures var n := |list| - 1;
            RestartShown(known, list, ignore, clock, name, t) <==>
              RestartShown(known, list[..n], ignore, clock, name, t) || RestartAt(known, list, ignore, clock, n, name, t)
  {
    var n := |list| - 1;
    if RestartShown(known, list[..n], ignore, clock, name, t) {
      var i :| RestartAt(known, list[..n], ignore, clock, i, name, t);
      assert RestartAt(known, list, ignore, clock, i, name, t);
    }
    if RestartShown(known, list, ignore, clock, name, t) && !RestartAt(known, list, ignore, clock, n, name, t) {
      var i :| RestartAt(known, list, ignore, clock, i, name, t);
      assert RestartAt(known, list[..n], ignore, clock, i, name, t);
    }
  }

  /** A poll reports a restart of a container, by an event of its own stamped with the clock reading, if and only if it
      lists it as restarting and the last poll did not. */
  lemma {:induction false} RestartsAreReported(w: Watch, known: map<string, string>, list: seq<Container>, ignore: seq<string>,
                                               clock: nat -> Time, name: string, t: Time)
    requires Reporting(w.db)
    ensures var db' := ObserveAll(w, known, list, ignore, clock).db;
            && Reporting(db')
            && (Fanout.KeyTaken(db', RestartKey(name, t)) <==>
                  Fanout.KeyTaken(w.db, RestartKey(name, t)) || RestartShown(known, list, ignore, clock, name, t))
  {
    if list != [] {
      var n := |list| - 1;
      RestartsAreReported(w, known, list[..n], ignore, clock, name, t);
      RestartShownGrows(known, list, ignore, clock, name, t);
      if list[n].name !in ignore {
        ObserveRestarts(ObserveAll(w, known, list[..n], ignore, clock), known, list[n], clock, n, name, t);
      }
    }
  }

  // ---- sequences of polls -------------------------------------------------------------

  /** All polls since a restart, which forgets the container states: the flags, and the states remembered. */
  function Polled(w: Watch, polls: seq<Poll>): (Watch, map<string, string>) {
    if |polls| == 0 then (w, map[])
    else
      var p := polls[|polls| - 1];
      var (before, known) := Polled(w, polls[..|polls| - 1]);
      (ObserveAll(before, known, p.list, p.ignore, p.clock), Current(p.list, p.ignore))
  }

  /** The state a poll shows for a container. */
  function Shown(p: Poll, name: string): Option<string> {
    var found := Find(p.list, p.ignore, name);
    if found.Some? then Some(found.value.state) else None
  }

  predicate UpAt(polls: seq<Poll>, name: string, j: nat) {
    j < |polls| && Shown(polls[j], name) in {Some("running"), Some("restarting")}
  }

  predicate DownAt(polls: seq<Poll>, name: string, j: nat) {
    j < |polls| && Shown(polls[j], name) in {Some("exited"), Some("dead")}
  }

  /** Never shown running in poll j or later. */
  ghost predicate NeverRunning(polls: seq<Poll>, name: string, j: nat) {
    forall k :: j <= k < |polls| ==> Shown(polls[k], name) != Some("running")
  }

  /** Up in one poll, down in the next, and not running since. */
  ghost predicate FellAt(polls: seq<Poll>, name: string, j: nat) {
    1 <= j && UpAt(polls, name, j - 1) && DownAt(polls, name, j) && NeverRunning(polls, name, j)
  }

  lemma PolledKnows(w: Watch, polls: seq<Poll>, name: string)
    requires |polls| > 0
    ensures var known, shown := Polled(w, polls).1, Shown(polls[|polls| - 1], name);
            (name in known <==> shown.Some?) && (name in known ==> known[name] == shown.value)
  {
    FindIsUnique(polls[|polls| - 1].list, polls[|polls| - 1].ignore, name);
  }

  lemma NeverRunningGrows(polls: seq<Poll>, p: Poll, name: string, j: nat)
    requires j <= |polls|
    ensures NeverRunning(polls + [p], name, j) <==> NeverRunning(polls, name, j) && Shown(p, name) != Some("running")
  {
    forall k | j <= k < |polls| ensures (polls + [p])[k] == polls[k] {}
    assert (polls + [p])[|polls|] == p;
  }

  lemma FellAtGrows(polls: seq<Poll>, p: Poll, name: string, j: nat)
    ensures FellAt(polls + [p], name, j) <==>
              if j == |polls| then 1 <= j && UpAt(polls, name, j - 1) && Shown(p, name) in {Some("exited"), Some("dead")}
              else FellAt(polls, name, j) && Shown(p, name) != Some("running")
  {
    if j <= |polls| {
      NeverRunningGrows(polls, p, name, j);
    }
  }

  /** A "stopped" alert is outstanding exactly when two consecutive polls saw the container go down and none has seen
      it running since, or when the alert is older than the restart and no poll has seen it running. */
  lemma {:induction false} StoppedMeans(w: Watch, polls: seq<Poll>, name: string)
    requires forall k :: 0 <= k < |polls| ==> DistinctNames(polls[k].list)
    ensures Outstanding(Polled(w, polls).0, STOPPED, name) <==>
              || (Outstanding(w, STOPPED, name) && NeverRunning(polls, name, 0))
              || exists j :: FellAt(polls, name, j)
  {
    if |polls| > 0 {
      var n := |polls| - 1;
      var init, p := polls[..n], polls[n];
      assert init + [p] == polls;
      StoppedMeans(w, init, name);
      var (before, known) := Polled(w, init);
      PollReports(before, known, p.list, p.ignore, p.clock, name);
      NeverRunningGrows(init, p, name, 0);
      FellAtGrows(init, p, name, n);
      if n > 0 {
        PolledKnows(w, init, name);
      }
      forall j ensures FellAt(polls, name, j) <==>
          if j == n then FellAt(polls, name, n) else FellAt(init, name, j) && Shown(p, name) != Some("running")
      {
        FellAtGrows(init, p, name, j);
      }
      StopIsFall(w, init, p, name);
      if Outstanding(before, STOPPED, name) && Shown(p, name) != Some("running") && !Outstanding(w, STOPPED, name) {
        var j :| FellAt(init, name, j);
        assert j != n;
        assert FellAt(polls, name, j);
      }
    }
  }

  /** What the monitor calls a stop is a fall from the last poll to this one. */
  lemma StopIsFall(w: Watch, init: seq<Poll>, p: Poll, name: string)
    ensures var found := Find(p.list, p.ignore, name);
            FellAt(init + [p], name, |init|) <==> found.Some? && StopSeen(Polled(w, init).1, found.value)
  {
    FellAtGrows(init, p, name, |init|);
    FindIsUnique(p.list, p.ignore, name);
    if |init| > 0 {
      PolledKnows(w, init, name);
    }
  }
}
