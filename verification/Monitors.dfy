/** The monitor as an object: its maps, updated in place, and the notifier it emits to. */
module Monitors {
  import opened Common
  import opened Store
  import opened Watching
  import opened Containers
  import opened Hysteresis
  import Notifications

  lemma FlagsGrow(done: set<Scope>, scope: Scope)
    ensures Flags(done + {scope}) == Flags(done)[Flag(scope.key, scope.subject) := true]
  {
    assert FlagSet(done + {scope}) == FlagSet(done) + {Flag(scope.key, scope.subject)};
  }

  lemma OneMoreReading(rs: seq<Reading>, r: Reading)
    ensures Count(rs + [r]) == Bump(Count(rs), r)
  {
    assert (rs + [r])[..|rs|] == rs;
  }

  function Counter(over: map<string, nat>, flag: string): nat {
    if flag in over then over[flag] else 0
  }

  ghost function ReadingsOf(readings: map<string, seq<Reading>>, flag: string): seq<Reading> {
    if flag in readings then readings[flag] else []
  }

  /** Every counter counts its subject's readings. */
  ghost predicate Counted(over: map<string, nat>, readings: map<string, seq<Reading>>) {
    forall flag :: Counter(over, flag) == Count(ReadingsOf(readings, flag))
  }

  lemma CountedOnceMore(over: map<string, nat>, over': map<string, nat>, readings: map<string, seq<Reading>>, flag: string, r: Reading)
    requires Counted(over, readings)
    requires forall other :: Counter(over', other) == if other == flag then Bump(Counter(over, flag), r) else Counter(over, other)
    ensures Counted(over', readings[flag := ReadingsOf(readings, flag) + [r]])
  {
    var readings' := readings[flag := ReadingsOf(readings, flag) + [r]];
    OneMoreReading(ReadingsOf(readings, flag), r);
    forall other ensures Counter(over', other) == Count(ReadingsOf(readings', other)) {
      assert Counter(over, other) == Count(ReadingsOf(readings, other));
    }
  }

  class Monitor {
    const notifier: Notifications.Service
    var containers: map<string, string>
    var alerted: map<string, bool>
    var over: map<string, nat>
    /** The readings of every subject since the last seed. */
    ghost var readings: map<string, seq<Reading>>

    function View(): Watch
      reads this, notifier
    {
      Watch(notifier.Tables(), alerted)
    }

    ghost function History(flag: string): seq<Reading>
      reads this`readings
    {
      ReadingsOf(readings, flag)
    }

    ghost predicate Valid()
      reads this`over, this`readings
    {
      Counted(over, readings)
    }

    constructor (notifier: Notifications.Service)
      ensures this.notifier == notifier && Valid() && fresh(this)
    {
      this.notifier := notifier;
      containers, alerted, over, readings := map[], map[], map[], map[];
    }

    /** What a restarted panel does first: forget everything but the stored active alerts. */
    method SeedFlags()
      requires Valid()
      modifies this
      ensures Valid() && View() == Seeded(old(View())) && containers == map[] && readings == map[]
    {
      containers, alerted, over, readings := map[], map[], map[], map[];
      ghost var done: set<Scope> := {};
      var left := ActiveScopes(notifier.Tables());
      while left != {}
        invariant left !! done && left + done == ActiveScopes(notifier.Tables())
        invariant alerted == Flags(done)
        invariant Valid() && containers == map[] && readings == map[]
        decreases left
      {
        var scope :| scope in left;
        FlagsGrow(done, scope);
        left := left - {scope};
        done := done + {scope};
        alerted := alerted[Flag(scope.key, scope.subject) := true];
      }
    }

    /** An enqueue error is only logged. */
    method EmitEvent(e: Event, now: Time)
      modifies notifier
      ensures notifier.Tables() == Emit(old(notifier.Tables()), e, now)
      ensures old(notifier.Valid()) ==> notifier.Valid()
    {
      var _ := notifier.Enqueue(e, now);
    }

    method RaiseAlert(key: string, severity: string, subject: string, now: Time)
      modifies this`alerted, notifier
      ensures View() == Raised(old(View()), key, severity, subject, now)
      ensures old(notifier.Valid()) ==> notifier.Valid()
    {
      alerted := alerted[Flag(key, subject) := true];
      EmitEvent(AlertEvent(key, severity, subject), now);
    }

    method ResolveAlert(key: string, subject: string, now: Time)
      modifies this`alerted, notifier
      ensures View() == Cleared(old(View()), key, subject, now)
      ensures old(notifier.Valid()) ==> notifier.Valid()
    {
      var active := Alerting(alerted, Flag(key, subject));
      alerted := alerted - {Flag(key, subject)};
      if active {
        EmitEvent(RecoveryEvent(key, subject), now);
      }
    }

    /** Count a reading under the mutex; the sum is the count of the subject's readings. */
    method CountReading(flag: string, r: Reading) returns (count: nat)
      requires Valid()
      modifies this`over, this`readings
      ensures Valid()
      ensures readings == old(readings)[flag := old(History(flag)) + [r]]
      ensures count == Count(History(flag))
    {
      ghost var before := over;
      count := if flag in over then over[flag] else 0;
      if r.value >= r.limit {
        count := count + 1;
        over := over[flag := count];
      } else if r.value < r.limit - 5.0 {
        count := 0;
        over := over[flag := count];
      }
      CountedOnceMore(before, over, readings, flag, r);
      readings := readings[flag := ReadingsOf(readings, flag) + [r]];
      assert count == Counter(over, flag);
    }

    /** One resource reading: alert when two readings reached the limit since the last low one, recover when none did. */
    method Threshold(key: string, severity: string, subject: string, value: real, limit: real, now: Time)
      requires Valid()
      modifies this`alerted, this`over, this`readings, notifier
      ensures Valid()
      ensures readings == old(readings)[Flag(key, subject) := old(History(Flag(key, subject))) + [Reading(value, limit)]]
      ensures var rs := History(Flag(key, subject));
              View() == if Alarming(rs) then Raised(old(View()), key, severity, subject, now)
                        else if Calm(rs) then Cleared(old(View()), key, subject, now)
                        else old(View())
    {
      var count := CountReading(Flag(key, subject), Reading(value, limit));
      CounterMeans(History(Flag(key, subject)));
      if count >= 2 {
        RaiseAlert(key, severity, subject, now);
      } else if count == 0 {
        ResolveAlert(key, subject, now);
      }
    }

    /** One container of a poll. */
    method CheckContainer(c: Container, clock: nat -> Time, i: nat)
      modifies this`alerted, notifier
      ensures View() == Observe(old(View()), containers, c, clock, i)
    {
      var known := c.name in containers;
      var previous := if known then containers[c.name] else "";
      var running := c.state == "running";
      if running {
        ResolveAlert(STOPPED, c.name, clock(3 * i));
      } else if known && (previous == "running" || previous == "restarting") && (c.state == "exited" || c.state == "dead") {
        RaiseAlert(STOPPED, "error", c.name, clock(3 * i));
      }
      if c.state == "restarting" && previous != "restarting" {
        EmitEvent(RestartEvent(c.name, clock(3 * i + 1)), clock(3 * i + 1));
      }
      if running && c.health == "unhealthy" {
        RaiseAlert(UNHEALTHY, "critical", c.name, clock(3 * i + 2));
      } else if running {
        ResolveAlert(UNHEALTHY, c.name, clock(3 * i + 2));
      }
    }

    /** One poll; when Docker cannot be asked, nothing changes. */
    method CheckDocker(answer: Option<seq<Container>>, ignore: seq<string>, clock: nat -> Time)
      modifies this`alerted, this`containers, notifier
      ensures answer.None? ==> View() == old(View()) && containers == old(containers)
      ensures answer.Some? ==>
                View() == ObserveAll(old(View()), old(containers), answer.value, ignore, clock)
                && containers == Current(answer.value, ignore)
    {
      if answer.None? {
        return;
      }
      var list := answer.value;
      var current: map<string, string> := map[];
      for i := 0 to |list|
        invariant View() == ObserveAll(old(View()), containers, list[..i], ignore, clock)
        invariant current == Current(list[..i], ignore) && containers == old(containers)
      {
        assert list[..i + 1][..i] == list[..i];
        if list[i].name !in ignore {
          current := current[list[i].name := list[i].state];
          CheckContainer(list[i], clock, i);
        }
      }
      assert list[..|list|] == list;
      containers := current;
    }
  }
}
