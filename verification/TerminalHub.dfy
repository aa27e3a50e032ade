/** The terminal hub as objects: HubSession, whose methods are the steps of the session model, and the
    registry of sessions with its per-user limit. */
module TerminalHub {
  import opened Common
  import opened Terminal

  const MAX_SESSIONS: nat := 8

  /** What one Read of the shell returned. */
  datatype ShellRead = ShellRead(chunk: Bytes, failed: bool)

  /** The session after the pump has delivered a run of chunks. */
  function DeliverAll(s: Session, chunks: seq<Bytes>): (r: Session)
    requires Known(s)
    ensures Known(r)
  {
    if chunks == [] then s else Deliver(DeliverAll(s, chunks[..|chunks| - 1]), chunks[|chunks| - 1])
  }

  function Chunk(r: ShellRead): seq<Bytes> {
    if r.chunk == [] then [] else [r.chunk]
  }

  /** The non-empty chunks read up to and including the first failing read. */
  function Chunks(input: seq<ShellRead>): seq<Bytes> {
    if input == [] then [] else Chunk(input[0]) + if input[0].failed then [] else Chunks(input[1..])
  }

  /** Some read fails, as reading from a finished shell does. */
  predicate Fails(input: seq<ShellRead>) {
    input != [] && (input[0].failed || Fails(input[1..]))
  }

  /** The bytes of some reads, one after the other. */
  function Joined(input: seq<ShellRead>): Bytes {
    if input == [] then [] else Joined(input[..|input| - 1]) + input[|input| - 1].chunk
  }

  lemma {:induction false} JoinedInTwo(r: ShellRead, rest: seq<ShellRead>)
    ensures Joined([r] + rest) == r.chunk + Joined(rest)
  {
    if rest == [] {
      assert [r] + rest == [r] && [r][..0] == [];
    } else {
      assert ([r] + rest)[..|rest|] == [r] + rest[..|rest| - 1];
      JoinedInTwo(r, rest[..|rest| - 1]);
      assert r.chunk + Joined(rest[..|rest| - 1]) + rest[|rest| - 1].chunk == r.chunk + (Joined(rest[..|rest| - 1]) + rest[|rest| - 1].chunk);
    }
  }

  lemma {:induction false} FlatInTwo(a: seq<Bytes>, b: seq<Bytes>)
    ensures Flat(a + b) == Flat(a) + Flat(b)
  {
    if b == [] {
      assert a + b == a;
    } else {
      assert (a + b)[..|a + b| - 1] == a + b[..|b| - 1];
      FlatInTwo(a, b[..|b| - 1]);
      assert Flat(a) + Flat(b[..|b| - 1]) + b[|b| - 1] == Flat(a) + (Flat(b[..|b| - 1]) + b[|b| - 1]);
    }
  }

  lemma ChunkIsFlat(r: ShellRead)
    ensures Flat(Chunk(r)) == r.chunk
  {
    assert r.chunk != [] ==> [r.chunk][..0] == [] && [] + r.chunk == r.chunk;
  }

  /** What the pump delivers: when read n is the first that fails, exactly the bytes of the reads up to it, those that came
      with the error included, in chunks of which none is empty. */
  lemma {:induction false} ChunksAre(input: seq<ShellRead>, n: nat)
    requires n < |input| && input[n].failed && forall k :: 0 <= k < n ==> !input[k].failed
    ensures Fails(input) && Flat(Chunks(input)) == Joined(input[..n + 1])
    ensures forall k :: 0 <= k < |Chunks(input)| ==> Chunks(input)[k] != []
    decreases n
  {
    ChunkIsFlat(input[0]);
    assert input[..n + 1] == [input[0]] + input[1..n + 1];
    JoinedInTwo(input[0], input[1..n + 1]);
    if n == 0 {
      assert Chunk(input[0]) + [] == Chunk(input[0]);
    } else {
      ChunksAre(input[1..], n - 1);
      assert input[1..][..n] == input[1..n + 1];
      FlatInTwo(Chunk(input[0]), Chunks(input[1..]));
    }
  }

  lemma DeliverOne(s: Session, chunk: Bytes)
    requires Known(s)
    ensures DeliverAll(s, [chunk]) == Deliver(s, chunk)
  {
    assert [chunk][..0] == [];
  }

  lemma {:induction false} DeliverInTwo(s: Session, first: seq<Bytes>, rest: seq<Bytes>)
    requires Known(s)
    ensures DeliverAll(s, first + rest) == DeliverAll(DeliverAll(s, first), rest)
  {
    if rest == [] {
      assert first + rest == first;
    } else {
      assert (first + rest)[..|first + rest| - 1] == first + rest[..|rest| - 1];
      DeliverInTwo(s, first, rest[..|rest| - 1]);
    }
  }

  lemma DeliverRead(s: Session, input: seq<ShellRead>)
    requires Known(s) && input != []
    ensures DeliverAll(s, Chunks(input)) ==
            DeliverAll(DeliverAll(s, Chunk(input[0])), if input[0].failed then [] else Chunks(input[1..]))
  {
    DeliverInTwo(s, Chunk(input[0]), if input[0].failed then [] else Chunks(input[1..]));
  }

  class HubSession {
    var scrollback: Bytes
    var attached: Option<nat>
    var replaced: Option<nat>
    var exited: bool
    var channels: seq<Channel>
    ghost var output: Bytes
    ghost var records: seq<Record>

    ghost function Model(): Session
      reads this
    {
      Session(scrollback, attached, replaced, exited, channels, output, records)
    }

    ghost predicate Valid()
      reads this
    {
      Inv(Model())
    }

    constructor ()
      ensures Model() == NEW_SESSION && Valid()
    {
      scrollback, attached, replaced, exited, channels, output, records := [], None, None, false, [], [], [];
    }

    /** close(channel): closing a channel twice would panic, so the channel has to be open. */
    method CloseChannel(c: nat, ghost until: nat, ghost cause: Cause, ghost dropped: Bytes)
      requires Known(Model()) && c < |channels| && channels[c].open
      modifies this`channels, this`records
      ensures Model() == Close(old(Model()), c, until, cause, dropped)
    {
      channels := channels[c := channels[c].(open := false)];
      records := records[c := records[c].(until := until, cause := cause, dropped := dropped)];
    }

    method Attach() returns (replay: Bytes, channel: nat)
      requires Valid()
      modifies this
      ensures Model() == Terminal.Attach(old(Model())) && Valid()
      ensures channel == |old(channels)| && replay == records[channel].replay
    {
      AttachKeeps(Model());
      if attached.Some? {
        assert Disciplined(Model(), attached.value);
        CloseChannel(attached.value, |output|, Replaced, []);
        replaced := attached;
      }
      channel := |channels|;
      channels := channels + [Channel(true, [], 0)];
      attached := Some(channel);
      replay := scrollback;
      records := records + [Record(|output|, replay, |output|, Live, [])];
      if exited {
        CloseChannel(channel, |output|, Ended, []);
        attached := None;
      }
    }

    /** The closure Attach hands out. */
    method Detach(channel: nat)
      requires Valid()
      modifies this
      ensures Model() == Terminal.Detach(old(Model()), channel) && Valid()
    {
      DropKeeps(Model(), |output|, Detached);
      if attached == Some(channel) {
        assert Disciplined(Model(), channel);
        CloseChannel(channel, |output|, Detached, []);
        attached := None;
      }
    }

    method WasReplaced(channel: nat) returns (r: bool)
      ensures r == Terminal.WasReplaced(Model(), channel)
    {
      r := replaced.Some? && replaced.value == channel;
    }

    /** The critical section of pump: keep the chunk, hand it over, or drop an attachment that is too slow. */
    method Deliver(chunk: Bytes)
      requires Valid()
      modifies this
      ensures Model() == Terminal.Deliver(old(Model()), chunk) && Valid() && exited == old(exited)
    {
      ghost var before := Model();
      output := output + chunk;
      scrollback := scrollback + chunk;
      if |scrollback| > SCROLLBACK {
        scrollback := scrollback[|scrollback| - SCROLLBACK..];
      }
      if attached.Some? {
        assert Disciplined(before, attached.value);
        if |channels[attached.value].sent| - channels[attached.value].received < BUFFER {
          channels := channels[attached.value := channels[attached.value].(sent := channels[attached.value].sent + [chunk])];
        } else {
          CloseChannel(attached.value, |before.output|, TooSlow, chunk);
          attached := None;
        }
      }
      assert Model() == Terminal.Deliver(before, chunk);
      DeliverKeeps(before, chunk);
    }

    /** The last critical section of pump. */
    method End()
      requires Valid() && !exited
      modifies this
      ensures Model() == Exit(old(Model())) && Valid()
    {
      ExitKeeps(Model());
      exited := true;
      if attached.Some? {
        assert Disciplined(old(Model()), attached.value);
        CloseChannel(attached.value, |output|, Ended, []);
        attached := None;
      }
    }

    /** One turn of the pump loop. */
    method Take(r: ShellRead)
      requires Valid() && !exited
      modifies this
      ensures Model() == DeliverAll(old(Model()), Chunk(r)) && Valid() && !exited
    {
      if |r.chunk| > 0 {
        DeliverOne(Model(), r.chunk);
        Deliver(r.chunk);
      }
    }

    /** The pump goroutine: deliver what the shell writes until a read fails, then mark the shell exited. */
    method Pump(input: seq<ShellRead>)
      requires Valid() && !exited && Fails(input)
      modifies this
      ensures Model() == Exit(DeliverAll(old(Model()), Chunks(input))) && Valid()
    {
      var left := input;
      var failed := false;
      ghost var all := DeliverAll(Model(), Chunks(input));
      while !failed
        invariant Valid() && !exited
        invariant all == DeliverAll(Model(), if failed then [] else Chunks(left))
        invariant !failed ==> Fails(left)
        decreases !failed, |left|
      {
        var r := left[0];
        DeliverRead(Model(), left);
        Take(r);
        failed := r.failed;
        left := left[1..];
      }
      End();
    }
  }

  // ---- the registry -------------------------------------------------------------------

  function Owned(sessions: map<string, int>, user: int): set<string> {
    set id | id in sessions && sessions[id] == user
  }

  /** One Create in flight: whose it is, and whether it has passed the check. */
  datatype Creation = Creation(user: int, passed: bool)

  datatype Registry = Registry(sessions: map<string, int>, creations: map<nat, Creation>)

  datatype HubAction =
    | Begin(c: nat, user: int)
    | Check(c: nat)
    | Fail(c: nat)
    | Register(c: nat, id: string)
    | Leave(id: string)

  function HubStep(h: Registry, a: HubAction): Registry {
    match a
    case Begin(c, user) => if c in h.creations then h else h.(creations := h.creations[c := Creation(user, false)])
    case Check(c) =>
      if c !in h.creations || h.creations[c].passed then h
      else if |Owned(h.sessions, h.creations[c].user)| < MAX_SESSIONS
      then h.(creations := h.creations[c := h.creations[c].(passed := true)])
      else h.(creations := h.creations - {c})
    case Fail(c) => h.(creations := h.creations - {c})
    case Register(c, id) =>
      if c in h.creations && h.creations[c].passed
      then Registry(h.sessions[id := h.creations[c].user], h.creations - {c}) else h
    case Leave(id) => h.(sessions := h.sessions - {id})
  }

  /** The registry; `creations`, the Creates in flight, is history. */
  class Hub {
    var sessions: map<string, int>
    ghost var creations: map<nat, Creation>

    ghost function State(): Registry
      reads this
    {
      Registry(sessions, creations)
    }

    constructor ()
      ensures State() == Registry(map[], map[])
    {
      sessions, creations := map[], map[];
    }

    /** The first critical section of Create: count the user's sessions. */
    method MayCreate(ghost c: nat, user: int) returns (ok: bool)
      requires c in creations && creations[c] == Creation(user, false)
      modifies this
      ensures State() == HubStep(old(State()), Check(c))
      ensures ok <==> c in creations
    {
      var count := CountOwned(user);
      ok := count < MAX_SESSIONS;
      creations := if ok then creations[c := Creation(user, true)] else creations - {c};
    }

    method CountOwned(user: int) returns (count: nat)
      ensures count == |Owned(sessions, user)|
    {
      count := 0;
      var left := sessions.Keys;
      while left != {}
        invariant left <= sessions.Keys
        invariant count == |Owned(sessions - left, user)|
        decreases left
      {
        var id :| id in left;
        ghost var seen := Owned(sessions - left, user);
        left := left - {id};
        if sessions[id] == user {
          count := count + 1;
          assert Owned(sessions - left, user) == seen + {id};
        } else {
          assert Owned(sessions - left, user) == seen;
        }
      }
      assert Owned(sessions - left, user) == Owned(sessions, user);
    }

    /** The second critical section of Create. */
    method Insert(ghost c: nat, user: int, id: string)
      requires c in creations && creations[c] == Creation(user, true)
      modifies this
      ensures State() == HubStep(old(State()), Register(c, id))
    {
      sessions := sessions[id := user];
      creations := creations - {c};
    }

    /** What onExit does. */
    method Remove(id: string)
      modifies this
      ensures State() == HubStep(old(State()), Leave(id))
    {
      sessions := sessions - {id};
    }

    /** A session is visible only to its own user. */
    method Get(user: int, id: string) returns (found: bool)
      ensures found <==> id in Owned(sessions, user)
    {
      found := id in sessions && sessions[id] == user;
    }
  }

  function HubRun(actions: seq<HubAction>): Registry {
    if actions == [] then Registry(map[], map[]) else HubStep(HubRun(actions[..|actions| - 1]), actions[|actions| - 1])
  }

  function InFlight(h: Registry, user: int): set<nat> {
    set c | c in h.creations && h.creations[c].user == user
  }

  function Passed(h: Registry, user: int): set<nat> {
    set c | c in h.creations && h.creations[c].user == user && h.creations[c].passed
  }

  lemma SubsetSize<T>(a: set<T>, b: set<T>)
    requires a <= b
    ensures |a| <= |b|
  {
    if a != {} {
      var x :| x in a;
      SubsetSize(a - {x}, b - {x});
    }
  }

  /** Registered sessions of the user and insertions already checked. */
  function Load(h: Registry, user: int): nat {
    |Owned(h.sessions, user)| + |Passed(h, user)|
  }

  lemma CheckKeepsCap(h: Registry, c: nat, user: int, most: nat)
    requires |InFlight(h, user)| <= most && Load(h, user) <= MAX_SESSIONS - 1 + most
    ensures Load(HubStep(h, Check(c)), user) <= MAX_SESSIONS - 1 + most
  {
    var h' := HubStep(h, Check(c));
    assert h'.sessions == h.sessions;
    if c in h'.creations && h.creations[c].user == user {
      SubsetSize(Passed(h', user), InFlight(h, user));
    } else {
      assert Passed(h', user) == Passed(h, user);
    }
  }

  lemma RegisterKeepsCap(h: Registry, c: nat, id: string, user: int)
    ensures Load(HubStep(h, Register(c, id)), user) <= Load(h, user)
  {
    if c in h.creations && h.creations[c].passed {
      var owned, passed := Owned(h.sessions, user), Passed(h, user);
      var sessions, creations := h.sessions[id := h.creations[c].user], h.creations - {c};
      var h' := Registry(sessions, creations);
      assert HubStep(h, Register(c, id)) == h';
      if h.creations[c].user == user {
        assert c in passed && Passed(h', user) == passed - {c};
        assert |passed - {c}| == |passed| - 1;
        SubsetSize(Owned(sessions, user), owned + {id});
      } else {
        assert Passed(h', user) == passed;
        SubsetSize(Owned(sessions, user), owned);
      }
    }
  }

  lemma HubStepKeepsCap(h: Registry, a: HubAction, user: int, most: nat)
    requires |InFlight(h, user)| <= most && Load(h, user) <= MAX_SESSIONS - 1 + most
    ensures Load(HubStep(h, a), user) <= MAX_SESSIONS - 1 + most
  {
    match a
    case Begin(c, u) => assert Passed(HubStep(h, a), user) == Passed(h, user);
    case Check(c) => CheckKeepsCap(h, c, user, most);
    case Fail(c) => SubsetSize(Passed(HubStep(h, a), user), Passed(h, user));
    case Register(c, id) => RegisterKeepsCap(h, c, id, user);
    case Leave(id) => SubsetSize(Owned(HubStep(h, a).sessions, user), Owned(h.sessions, user));
  }

  /** Never more than `most` Creates of one user in flight at any point of the run. */
  ghost predicate AtMost(actions: seq<HubAction>, user: int, most: nat) {
    |InFlight(HubRun(actions), user)| <= most && (actions != [] ==> AtMost(actions[..|actions| - 1], user, most))
  }

  /** The check and the insertion are separate critical sections, so concurrent Creates can exceed the limit, but with at
      most c in flight a user's registered sessions and checked insertions together never exceed 7 + c. */
  lemma {:induction false} SessionsAreCapped(actions: seq<HubAction>, user: int, most: nat)
    requires AtMost(actions, user, most)
    ensures Load(HubRun(actions), user) <= 7 + most
  {
    if actions == [] {
      assert Owned(map[], user) == {} && Passed(Registry(map[], map[]), user) == {};
    } else {
      var init := actions[..|actions| - 1];
      SessionsAreCapped(init, user, most);
      HubStepKeepsCap(HubRun(init), actions[|actions| - 1], user, most);
    }
  }

  // ---- how far the cap reaches --------------------------------------------------------

  /** The i-th session's id: any distinct ids do. */
  function Id(i: nat): string {
    seq(i, _ => 'x')
  }

  /** n sessions of one user. */
  function Filled(n: nat, user: int): map<string, int> {
    if n == 0 then map[] else Filled(n - 1, user)[Id(n - 1) := user]
  }

  /** Creates 0 to n - 1 of one user, those below p checked. */
  function Waiting(n: nat, p: nat, user: int): map<nat, Creation> {
    if n == 0 then map[] else Waiting(n - 1, p, user)[n - 1 := Creation(user, n - 1 < p)]
  }

  lemma {:induction false} WaitingIs(n: nat, p: nat, user: int)
    ensures forall i :: i in Waiting(n, p, user) <==> 0 <= i < n
    ensures forall i :: 0 <= i < n ==> Waiting(n, p, user)[i] == Creation(user, i < p)
  {
    if n > 0 {
      WaitingIs(n - 1, p, user);
    }
  }

  lemma {:induction false} FilledSize(n: nat, user: int)
    ensures |Owned(Filled(n, user), user)| == n
    ensures forall id :: id in Filled(n, user) ==> |id| < n
  {
    if n == 0 {
      assert Owned(Filled(0, user), user) == {};
    } else {
      FilledSize(n - 1, user);
      assert |Id(n - 1)| == n - 1;
      assert Owned(Filled(n, user), user) == Owned(Filled(n - 1, user), user) + {Id(n - 1)};
    }
  }

  lemma {:induction false} NumbersSize(s: set<nat>, n: nat)
    requires forall i :: i in s <==> 0 <= i < n
    ensures |s| == n
  {
    if n == 0 {
      assert s == {};
    } else {
      NumbersSize(s - {n - 1}, n - 1);
    }
  }

  /** A run so far: where it leads, with never more than `most` Creates in flight. */
  ghost predicate Leads(actions: seq<HubAction>, user: int, most: nat, sessions: map<string, int>, creations: map<nat, Creation>) {
    AtMost(actions, user, most) && HubRun(actions) == Registry(sessions, creations)
  }

  lemma OneMoreAction(actions: seq<HubAction>, a: HubAction, user: int, most: nat)
    requires AtMost(actions, user, most) && |InFlight(HubStep(HubRun(actions), a), user)| <= most
    ensures AtMost(actions + [a], user, most) && HubRun(actions + [a]) == HubStep(HubRun(actions), a)
  {
    assert (actions + [a])[..|actions|] == actions;
  }

  lemma InFlightOf(sessions: map<string, int>, n: nat, p: nat, user: int)
    ensures |InFlight(Registry(sessions, Waiting(n, p, user)), user)| == n
  {
    WaitingIs(n, p, user);
    NumbersSize(InFlight(Registry(sessions, Waiting(n, p, user)), user), n);
  }

  /** n sessions, created one after the other. */
  lemma {:induction false} FillOneByOne(n: nat, user: int, most: nat) returns (actions: seq<HubAction>)
    requires n < MAX_SESSIONS && 1 <= most
    ensures Leads(actions, user, most, Filled(n, user), map[])
  {
    if n == 0 {
      actions := [];
      assert InFlight(Registry(map[], map[]), user) == {};
    } else {
      var before := FillOneByOne(n - 1, user, most);
      var sessions := Filled(n - 1, user);
      FilledSize(n - 1, user);
      InFlightOf(sessions, 1, 0, user);
      assert map[][0 := Creation(user, false)] == Waiting(1, 0, user);
      OneMoreAction(before, Begin(0, user), user, most);
      actions := CheckThem(before + [Begin(0, user)], n - 1, 1, 0, user, most);
      InFlightOf(Filled(n, user), 0, 0, user);
      assert Waiting(1, 1, user) - {0} == map[] == Waiting(0, 0, user);
      OneMoreAction(actions, Register(0, Id(n - 1)), user, most);
      actions := actions + [Register(0, Id(n - 1))];
    }
  }

  /** All waiting Creates begin, whatever sessions there are. */
  lemma {:induction false} BeginThem(before: seq<HubAction>, n: nat, k: nat, user: int, most: nat) returns (actions: seq<HubAction>)
    requires Leads(before, user, most, Filled(n, user), map[]) && k <= most
    ensures Leads(actions, user, most, Filled(n, user), Waiting(k, 0, user))
  {
    if k == 0 {
      actions := before;
    } else {
      actions := BeginThem(before, n, k - 1, user, most);
      WaitingIs(k - 1, 0, user);
      InFlightOf(Filled(n, user), k, 0, user);
      assert Waiting(k - 1, 0, user)[k - 1 := Creation(user, false)] == Waiting(k, 0, user);
      OneMoreAction(actions, Begin(k - 1, user), user, most);
      actions := actions + [Begin(k - 1, user)];
    }
  }

  /** Each of them passes the check before any is inserted. */
  lemma {:induction false} CheckThem(before: seq<HubAction>, n: nat, k: nat, p: nat, user: int, most: nat) returns (actions: seq<HubAction>)
    requires n < MAX_SESSIONS && p <= k <= most && Leads(before, user, most, Filled(n, user), Waiting(k, p, user))
    ensures Leads(actions, user, most, Filled(n, user), Waiting(k, k, user))
    decreases k - p
  {
    if p == k {
      actions := before;
    } else {
      FilledSize(n, user);
      InFlightOf(Filled(n, user), k, p + 1, user);
      var c := Waiting(k, p, user);
      WaitingIs(k, p, user);
      WaitingIs(k, p + 1, user);
      assert c[p := c[p].(passed := true)] == Waiting(k, p + 1, user);
      OneMoreAction(before, Check(p), user, most);
      actions := CheckThem(before + [Check(p)], n, k, p + 1, user, most);
    }
  }

  /** The last one waiting is inserted. */
  lemma RegisterOne(before: seq<HubAction>, n: nat, k: nat, user: int, most: nat)
    requires k + 1 <= most && Leads(before, user, most, Filled(n, user), Waiting(k + 1, k + 1, user))
    ensures Leads(before + [Register(k, Id(n))], user, most, Filled(n + 1, user), Waiting(k, k, user))
  {
    InFlightOf(Filled(n + 1, user), k, k, user);
    WaitingIs(k, k, user);
    WaitingIs(k + 1, k + 1, user);
    assert Waiting(k + 1, k + 1, user) - {k} == Waiting(k, k, user);
    OneMoreAction(before, Register(k, Id(n)), user, most);
  }

  /** And then all are inserted. */
  lemma {:induction false} RegisterThem(before: seq<HubAction>, n: nat, k: nat, user: int, most: nat) returns (actions: seq<HubAction>)
    requires k <= most && Leads(before, user, most, Filled(n, user), Waiting(k, k, user))
    ensures Leads(actions, user, most, Filled(n + k, user), Waiting(0, 0, user))
    decreases k
  {
    actions := before;
    if k > 0 {
      RegisterOne(before, n, k - 1, user, most);
      actions := RegisterThem(before + [Register(k - 1, Id(n))], n + 1, k - 1, user, most);
    }
  }

  /** The bound is reached: with c Creates in flight a user can get 7 + c sessions. */
  lemma CapIsReached(user: int, c: nat) returns (actions: seq<HubAction>)
    requires 1 <= c
    ensures AtMost(actions, user, c) && |Owned(HubRun(actions).sessions, user)| == 7 + c
  {
    actions := FillOneByOne(MAX_SESSIONS - 1, user, c);
    actions := BeginThem(actions, MAX_SESSIONS - 1, c, user, c);
    actions := CheckThem(actions, MAX_SESSIONS - 1, c, 0, user, c);
    actions := RegisterThem(actions, MAX_SESSIONS - 1, c, user, c);
    FilledSize(MAX_SESSIONS - 1 + c, user);
  }

  ghost predicate WithinLimit(actions: seq<HubAction>, user: int) {
    |Owned(HubRun(actions).sessions, user)| <= 8
  }

  /** So the limit of eight holds on all runs with at most c Creates of the user in flight if and only if c is at most 1. */
  lemma LimitHoldsIffSerial(user: int, c: nat)
    ensures (forall actions :: AtMost(actions, user, c) ==> WithinLimit(actions, user)) <==> c <= 1
  {
    if c <= 1 {
      forall actions | AtMost(actions, user, c) ensures WithinLimit(actions, user) {
        SessionsAreCapped(actions, user, c);
      }
    } else {
      var actions := CapIsReached(user, c);
      assert !WithinLimit(actions, user);
    }
  }

  // ---- places -------------------------------------------------------------------------

  /** An ended session frees exactly its own place: it is gone, and every other session stays its owner's. */
  lemma LeavingFreesPlace(actions: seq<HubAction>, id: string, user: int)
    ensures var h, h' := HubRun(actions), HubStep(HubRun(actions), Leave(id));
            && id !in h'.sessions && h'.creations == h.creations
            && (forall other :: other != id ==> (other in Owned(h'.sessions, user) <==> other in Owned(h.sessions, user)))
            && Load(h', user) == Load(h, user) - if id in Owned(h.sessions, user) then 1 else 0
  {
    var h, h' := HubRun(actions), HubStep(HubRun(actions), Leave(id));
    assert Owned(h'.sessions, user) == Owned(h.sessions, user) - {id};
    assert Passed(h', user) == Passed(h, user);
  }

  /** A Create ends with a session of its user, under the id drawn, exactly if fewer than eight were registered when it
      looked; one that is refused, or fails, leaves nothing. */
  lemma CreateSucceedsIff(actions: seq<HubAction>, c: nat, user: int, id: string)
    requires c !in HubRun(actions).creations
    ensures var h := HubRun(actions);
            var begun := HubStep(h, Begin(c, user));
            var checked := HubStep(begun, Check(c));
            && HubStep(checked, Register(c, id)) ==
                 (if |Owned(h.sessions, user)| < 8 then Registry(h.sessions[id := user], h.creations) else h)
            && HubStep(checked, Fail(c)) == h && HubStep(begun, Fail(c)) == h
  {
    var h := HubRun(actions);
    var begun := HubStep(h, Begin(c, user));
    assert begun.creations - {c} == h.creations;
    assert HubStep(begun, Check(c)).creations - {c} == h.creations;
  }

  /** So after one of eight sessions has ended the next Create succeeds again. */
  lemma PlaceIsFreeAgain(actions: seq<HubAction>, gone: string, c: nat, user: int, id: string)
    requires var h := HubRun(actions); gone in Owned(h.sessions, user) && |Owned(h.sessions, user)| <= 8 && c !in h.creations
    ensures var h := HubRun(actions + [Leave(gone)]);
            id in Owned(HubStep(HubStep(HubStep(h, Begin(c, user)), Check(c)), Register(c, id)).sessions, user)
  {
    var left := actions + [Leave(gone)];
    assert left[..|actions|] == actions;
    LeavingFreesPlace(actions, gone, user);
    var h, h' := HubRun(actions), HubRun(left);
    assert Owned(h'.sessions, user) == Owned(h.sessions, user) - {gone};
    CreateSucceedsIff(left, c, user, id);
  }
}
