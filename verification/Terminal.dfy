/** One persistent terminal session: each critical section under its mutex is one step on the session,
    with the shell's whole output and a record of every attachment kept as history. */
module Terminal {
  import opened Common

  newtype byte = b: int | 0 <= b < 256
  type Bytes = seq<byte>

  const SCROLLBACK: nat := 262144
  const BUFFER: nat := 256

  /** A buffered channel: what was ever sent on it, and how much of that was taken out again. */
  datatype Channel = Channel(open: bool, sent: seq<Bytes>, received: nat)

  datatype Cause = Live | Replaced | Detached | TooSlow | Ended

  /** The history of one attachment: the output length when it began, what was replayed to it, and once it is over
      the output length it reaches to, why it ended, and the chunk that found its buffer full. */
  datatype Record = Record(from: nat, replay: Bytes, until: nat, cause: Cause, dropped: Bytes)

  /** Channels are named by their position in `channels`; `output` and `records` are history. */
  datatype Session = Session(
    scrollback: Bytes, attached: Option<nat>, replaced: Option<nat>, exited: bool,
    channels: seq<Channel>, output: Bytes, records: seq<Record>)

  const NEW_SESSION := Session([], None, None, false, [], [], [])

  predicate Known(s: Session) {
    |s.channels| == |s.records| && (s.attached.Some? ==> s.attached.value < |s.channels|)
  }

  function Queued(c: Channel): nat {
    if c.received <= |c.sent| then |c.sent| - c.received else 0
  }

  /** close(channel), with the reason and the output length noted. */
  function Close(s: Session, c: nat, until: nat, cause: Cause, dropped: Bytes): Session
    requires Known(s) && c < |s.channels|
  {
    s.(channels := s.channels[c := s.channels[c].(open := false)],
       records := s.records[c := s.records[c].(until := until, cause := cause, dropped := dropped)])
  }

  /** Close the attached channel, if there is one, and forget it. */
  function DropAttached(s: Session, until: nat, cause: Cause, dropped: Bytes): Session
    requires Known(s)
  {
    if s.attached.None? then s else Close(s, s.attached.value, until, cause, dropped).(attached := None)
  }

  function Attach(s: Session): (r: Session)
    requires Known(s)
    ensures Known(r)
  {
    var taken := DropAttached(s, |s.output|, Replaced, []);
    var c := |s.channels|;
    taken.(
      channels := taken.channels + [Channel(!s.exited, [], 0)],
      records := taken.records + [Record(|s.output|, s.scrollback, |s.output|, if s.exited then Ended else Live, [])],
      attached := if s.exited then None else Some(c),
      replaced := if s.attached.Some? then s.attached else s.replaced)
  }

  function Detach(s: Session, c: nat): (r: Session)
    requires Known(s)
    ensures Known(r)
  {
    if s.attached == Some(c) then DropAttached(s, |s.output|, Detached, []) else s
  }

  function Trim(scrollback: Bytes): Bytes {
    if |scrollback| > SCROLLBACK then scrollback[|scrollback| - SCROLLBACK..] else scrollback
  }

  /** The critical section of pump for one chunk. */
  function Deliver(s: Session, chunk: Bytes): (r: Session)
    requires Known(s)
    ensures Known(r)
  {
    var kept := s.(scrollback := Trim(s.scrollback + chunk), output := s.output + chunk);
    if s.attached.None? then kept
    else
      var c := s.attached.value;
      if Queued(s.channels[c]) < BUFFER
      then kept.(channels := s.channels[c := s.channels[c].(sent := s.channels[c].sent + [chunk])])
      else DropAttached(kept, |s.output|, TooSlow, chunk)
  }

  function Exit(s: Session): (r: Session)
    requires Known(s)
    ensures Known(r)
  {
    DropAttached(s, |s.output|, Ended, []).(exited := true)
  }

  /** A browser goroutine takes the next chunk, if one is there. */
  function Receive(s: Session, c: nat): (r: Session)
    requires Known(s)
    ensures Known(r)
  {
    if c < |s.channels| && s.channels[c].received < |s.channels[c].sent|
    then s.(channels := s.channels[c := s.channels[c].(received := s.channels[c].received + 1)])
    else s
  }

  predicate WasReplaced(s: Session, c: nat) {
    s.replaced == Some(c)
  }

  // ---- runs ---------------------------------------------------------------------------

  datatype Action = DoAttach | DoDetach(c: nat) | DoDeliver(chunk: Bytes) | DoExit | DoReceive(c: nat)

  /** Any goroutine's next critical section; the pump stops once the shell has exited. */
  function Step(s: Session, a: Action): (r: Session)
    requires Known(s)
    ensures Known(r)
  {
    match a
    case DoAttach => Attach(s)
    case DoDetach(c) => Detach(s, c)
    case DoDeliver(chunk) => if s.exited then s else Deliver(s, chunk)
    case DoExit => if s.exited then s else Exit(s)
    case DoReceive(c) => Receive(s, c)
  }

  function Run(actions: seq<Action>): (s: Session)
    ensures Known(s)
  {
    if actions == [] then NEW_SESSION else Step(Run(actions[..|actions| - 1]), actions[|actions| - 1])
  }

  // ---- the invariant ------------------------------------------------------------------

  function Flat(chunks: seq<Bytes>): Bytes {
    if chunks == [] then [] else Flat(chunks[..|chunks| - 1]) + chunks[|chunks| - 1]
  }

  /** Where the replay of an attachment begun at output length h starts. */
  function Start(h: nat): nat {
    if h > SCROLLBACK then h - SCROLLBACK else 0
  }

  /** The output length an attachment reaches to. */
  function Reach(s: Session, i: nat): nat
    requires Known(s) && i < |s.channels|
  {
    if s.channels[i].open then |s.output| else s.records[i].until
  }

  /** Everything an attachment was given: its replay, then its live chunks. */
  function Given(s: Session, i: nat): Bytes
    requires Known(s) && i < |s.channels|
  {
    s.records[i].replay + Flat(s.channels[i].sent)
  }

  ghost predicate Slice(s: Session, i: nat)
    requires Known(s) && i < |s.channels|
  {
    && s.records[i].from <= Reach(s, i) <= |s.output|
    && Given(s, i) == s.output[Start(s.records[i].from)..Reach(s, i)]
    && (i + 1 < |s.channels| ==> !s.channels[i].open && s.records[i].until <= s.records[i + 1].from)
  }

  predicate DroppedAt(output: Bytes, r: Record) {
    r.until <= |output| && r.dropped <= output[r.until..]
  }

  lemma DroppedStays(output: Bytes, chunk: Bytes, r: Record)
    requires DroppedAt(output, r)
    ensures DroppedAt(output + chunk, r)
  {
    assert (output + chunk)[r.until..] == output[r.until..] + chunk;
  }

  /** An attachment's channel, its flag and the reason it ended agree. */
  ghost predicate Disciplined(s: Session, i: nat)
    requires Known(s) && i < |s.channels|
  {
    var c, r := s.channels[i], s.records[i];
    && (c.open <==> s.attached == Some(i)) && (c.open <==> r.cause.Live?)
    && c.received <= |c.sent| && Queued(c) <= BUFFER
    && (r.cause.TooSlow? ==> DroppedAt(s.output, r))
    && (r.cause.Replaced? ==> i + 1 < |s.records| && s.records[i + 1].from == r.until)
    && (r.cause.Replaced? ==> s.replaced.Some? && i <= s.replaced.value)
  }

  ghost predicate Inv(s: Session) {
    && Known(s)
    && s.scrollback == s.output[Start(|s.output|)..]
    && (s.exited ==> s.attached.None?)
    && (s.attached.Some? ==> s.attached.value == |s.channels| - 1)
    && (s.replaced.Some? ==> s.replaced.value < |s.records| && s.records[s.replaced.value].cause.Replaced?)
    && forall i :: 0 <= i < |s.channels| ==> Slice(s, i) && Disciplined(s, i)
  }

  lemma DropKeeps(s: Session, until: nat, cause: Cause)
    requires Inv(s) && until == |s.output| && (cause.Detached? || cause.Ended?)
    ensures Inv(DropAttached(s, until, cause, []))
  {
    var s' := DropAttached(s, until, cause, []);
    assert s.replaced.Some? ==> Disciplined(s, s.replaced.value);
    forall i | 0 <= i < |s'.channels| ensures Slice(s', i) && Disciplined(s', i) {
      assert Slice(s, i) && Disciplined(s, i);
    }
  }

  lemma AttachKeeps(s: Session)
    requires Inv(s)
    ensures Inv(Attach(s))
  {
    var s' := Attach(s);
    forall i | 0 <= i < |s'.channels| ensures Slice(s', i) && Disciplined(s', i) {
      if i < |s.channels| {
        assert Slice(s, i) && Disciplined(s, i);
      }
    }
  }

  lemma TrimKeepsTail(output: Bytes, chunk: Bytes)
    ensures Trim(output[Start(|output|)..] + chunk) == (output + chunk)[Start(|output + chunk|)..]
  {
    var kept := output[Start(|output|)..] + chunk;
    assert kept == (output + chunk)[Start(|output|)..];
  }

  lemma FlatGrows(chunks: seq<Bytes>, chunk: Bytes)
    ensures Flat(chunks + [chunk]) == Flat(chunks) + chunk
  {
    assert (chunks + [chunk])[..|chunks|] == chunks;
  }

  lemma SliceGrows(output: Bytes, chunk: Bytes, from: nat, to: nat)
    requires from <= to <= |output|
    ensures (output + chunk)[from..to] == output[from..to]
    ensures (output + chunk)[from..|output| + |chunk|] == output[from..|output|] + chunk
  {
  }

  /** The output grew, and attachment i was given nothing of it. */
  lemma SliceStays(s: Session, s': Session, chunk: Bytes, i: nat)
    requires Known(s) && Known(s') && i < |s.channels| == |s'.channels| && Slice(s, i)
    requires s'.output == s.output + chunk && Given(s', i) == Given(s, i)
    requires s'.records[i].from == s.records[i].from && Reach(s', i) == Reach(s, i)
    requires i + 1 < |s.channels| ==>
               !s'.channels[i].open && s'.records[i].until == s.records[i].until && s'.records[i + 1].from == s.records[i + 1].from
    ensures Slice(s', i)
  {
    SliceGrows(s.output, chunk, Start(s.records[i].from), Reach(s, i));
  }

  /** The output grew, and attachment i, the last one, was given all of it. */
  lemma SliceExtends(s: Session, s': Session, chunk: Bytes, i: nat)
    requires Known(s) && Known(s') && i + 1 == |s.channels| == |s'.channels| && Slice(s, i)
    requires s'.output == s.output + chunk && Given(s', i) == Given(s, i) + chunk
    requires s'.records[i].from == s.records[i].from && Reach(s, i) == |s.output| && Reach(s', i) == |s'.output|
    ensures Slice(s', i)
  {
    SliceGrows(s.output, chunk, Start(s.records[i].from), Reach(s, i));
  }

  /** What delivering does to an attachment that is handed nothing. */
  lemma DeliverPasses(s: Session, chunk: Bytes, i: nat)
    requires Inv(s) && i < |s.channels| && !(s.attached == Some(i) && Queued(s.channels[i]) < BUFFER)
    ensures var s' := Deliver(s, chunk);
            && s'.channels[i].sent == s.channels[i].sent && s'.records[i].replay == s.records[i].replay
            && s'.records[i].from == s.records[i].from && Reach(s', i) == Reach(s, i)
            && (i + 1 < |s.channels| ==>
                  !s'.channels[i].open && s'.records[i].until == s.records[i].until && s'.records[i + 1].from == s.records[i + 1].from)
  {
    assert Slice(s, i) && Disciplined(s, i);
  }

  /** And to the one that is handed the chunk. */
  lemma DeliverHands(s: Session, chunk: Bytes, i: nat)
    requires Inv(s) && s.attached == Some(i) && Queued(s.channels[i]) < BUFFER
    ensures var s' := Deliver(s, chunk);
            && i + 1 == |s.channels| && s'.records == s.records && Given(s', i) == Given(s, i) + chunk
            && Reach(s, i) == |s.output| && Reach(s', i) == |s'.output|
  {
    assert Disciplined(s, i);
    FlatGrows(s.channels[i].sent, chunk);
    assert s.records[i].replay + (Flat(s.channels[i].sent) + chunk) == Given(s, i) + chunk;
  }

  lemma DeliverSlice(s: Session, chunk: Bytes, i: nat)
    requires Inv(s) && i < |s.channels|
    ensures Slice(Deliver(s, chunk), i)
  {
    var s' := Deliver(s, chunk);
    assert Slice(s, i) && s'.output == s.output + chunk && |s'.channels| == |s.channels|;
    if s.attached == Some(i) && Queued(s.channels[i]) < BUFFER {
      DeliverHands(s, chunk, i);
      SliceExtends(s, s', chunk, i);
    } else {
      DeliverPasses(s, chunk, i);
      SliceStays(s, s', chunk, i);
    }
  }

  /** A step that leaves an attachment's channel and record alone, and the fields that speak of it. */
  lemma StaysDisciplined(s: Session, s': Session, chunk: Bytes, i: nat)
    requires Known(s) && Known(s') && i < |s.channels| == |s'.channels| && Disciplined(s, i)
    requires s'.output == s.output + chunk && s'.channels[i] == s.channels[i] && s'.records[i] == s.records[i]
    requires (s'.attached == Some(i)) == (s.attached == Some(i)) && s'.replaced == s.replaced
    requires i + 1 < |s.records| ==> s'.records[i + 1].from == s.records[i + 1].from
    ensures Disciplined(s', i)
  {
    if s.records[i].cause.TooSlow? {
      DroppedStays(s.output, chunk, s.records[i]);
    }
  }

  lemma DeliverDisciplined(s: Session, chunk: Bytes, i: nat)
    requires Inv(s) && i < |s.channels|
    ensures Disciplined(Deliver(s, chunk), i)
  {
    assert Disciplined(s, i);
    if s.attached == Some(i) {
      assert (s.output + chunk)[|s.output|..] == chunk;
    } else {
      StaysDisciplined(s, Deliver(s, chunk), chunk, i);
    }
  }

  lemma DeliverKeeps(s: Session, chunk: Bytes)
    requires Inv(s)
    ensures Inv(Deliver(s, chunk))
  {
    TrimKeepsTail(s.output, chunk);
    assert s.replaced.Some? ==> Disciplined(s, s.replaced.value);
    forall i | 0 <= i < |s.channels| ensures Slice(Deliver(s, chunk), i) && Disciplined(Deliver(s, chunk), i) {
      DeliverSlice(s, chunk, i);
      DeliverDisciplined(s, chunk, i);
    }
  }

  lemma ReceiveKeeps(s: Session, c: nat)
    requires Inv(s)
    ensures Inv(Receive(s, c))
  {
    forall i | 0 <= i < |s.channels| ensures Slice(Receive(s, c), i) && Disciplined(Receive(s, c), i) {
      assert Slice(s, i) && Disciplined(s, i);
    }
  }

  lemma StepKeeps(s: Session, a: Action)
    requires Inv(s)
    ensures Inv(Step(s, a))
  {
    match a
    case DoAttach => AttachKeeps(s);
    case DoDetach(_) => DropKeeps(s, |s.output|, Detached);
    case DoDeliver(chunk) => if !s.exited { DeliverKeeps(s, chunk); }
    case DoExit => if !s.exited { ExitKeeps(s); }
    case DoReceive(c) => ReceiveKeeps(s, c);
  }

  lemma ExitKeeps(s: Session)
    requires Inv(s)
    ensures Inv(Exit(s))
  {
    var dropped := DropAttached(s, |s.output|, Ended, []);
    DropKeeps(s, |s.output|, Ended);
    forall i | 0 <= i < |s.channels| ensures Slice(Exit(s), i) && Disciplined(Exit(s), i) {
      assert Slice(dropped, i) && Disciplined(dropped, i);
    }
  }

  lemma {:induction false} RunKeeps(actions: seq<Action>)
    ensures Inv(Run(actions))
  {
    if actions != [] {
      RunKeeps(actions[..|actions| - 1]);
      StepKeeps(Run(actions[..|actions| - 1]), actions[|actions| - 1]);
    }
  }

  // ---- what it means ------------------------------------------------------------------

  /** For every interleaving, an attachment's replay followed by its live chunks is one contiguous slice of the
      shell's whole output: it starts at most 262144 bytes before the output length at Attach, and ends at the
      present while the channel is open, else at the output length when it was closed; when it was closed for
      slowness, that is just before the chunk that was dropped. */
  lemma ReplayIsGapless(actions: seq<Action>, i: nat)
    requires i < |Run(actions).channels|
    ensures var s := Run(actions);
            && s.records[i].from <= Reach(s, i) <= |s.output|
            && Given(s, i) == s.output[Start(s.records[i].from)..Reach(s, i)]
            && (s.records[i].cause.TooSlow? ==> s.records[i].dropped <= s.output[Reach(s, i)..])
  {
    RunKeeps(actions);
    assert Slice(Run(actions), i) && Disciplined(Run(actions), i);
  }

  lemma SlicesJoin(output: Bytes, a: nat, b: nat, c: nat, d: nat)
    requires a <= b <= d <= |output| && c <= b
    ensures output[a..b] + output[c..d][b - c..] == output[a..d]
  {
  }

  /** Two successive attachments together miss nothing when at most 262144 bytes came between them: the second one's
      bytes, less the overlap, continue the first one's. */
  lemma SuccessorsMissNothing(actions: seq<Action>, i: nat)
    requires i + 1 < |Run(actions).channels|
    requires var s := Run(actions); s.records[i + 1].from <= Reach(s, i) + SCROLLBACK
    ensures JoinsUp(Run(actions), i)
  {
    RunKeeps(actions);
    Joined(Run(actions), i);
  }

  /** What attachment i was given, and what the next one was given beyond it, are one slice of the output. */
  ghost predicate JoinsUp(s: Session, i: nat)
    requires Known(s) && i + 1 < |s.channels|
  {
    var overlap := Reach(s, i) - Start(s.records[i + 1].from);
    && 0 <= overlap <= |Given(s, i + 1)| && Start(s.records[i].from) <= Reach(s, i) <= Reach(s, i + 1) <= |s.output|
    && Given(s, i) + Given(s, i + 1)[overlap..] == s.output[Start(s.records[i].from)..Reach(s, i + 1)]
  }

  lemma Joined(s: Session, i: nat)
    requires Inv(s) && i + 1 < |s.channels| && s.records[i + 1].from <= Reach(s, i) + SCROLLBACK
    ensures JoinsUp(s, i)
  {
    assert Slice(s, i) && Slice(s, i + 1);
    SlicesJoin(s.output, Start(s.records[i].from), Reach(s, i), Start(s.records[i + 1].from), Reach(s, i + 1));
  }

  /** An attachment taken over by the next one ends exactly where the next one begins, so nothing is ever missed. */
  lemma TakeoverMissesNothing(actions: seq<Action>, i: nat)
    requires i < |Run(actions).channels| && Run(actions).records[i].cause.Replaced?
    ensures var s := Run(actions); i + 1 < |s.channels| && s.records[i + 1].from == Reach(s, i)
  {
    RunKeeps(actions);
    assert Disciplined(Run(actions), i);
  }

  /** A channel is open exactly when it is the attached one, so at most one is, and none after the shell has exited;
      its buffer never holds more than 256 chunks; and WasReplaced names a channel closed by a takeover,
      the latest of them. */
  lemma ChannelsAreDisciplined(actions: seq<Action>, i: nat)
    requires i < |Run(actions).channels|
    ensures var s := Run(actions);
            && (s.channels[i].open <==> s.attached == Some(i))
            && (s.exited ==> !s.channels[i].open)
            && Queued(s.channels[i]) <= BUFFER
            && (WasReplaced(s, i) <==>
                  s.records[i].cause.Replaced? && forall j :: i < j < |s.records| ==> !s.records[j].cause.Replaced?)
  {
    RunKeeps(actions);
    LatestTakeover(Run(actions), i);
  }

  lemma LatestTakeover(s: Session, i: nat)
    requires Inv(s) && i < |s.channels|
    ensures (s.channels[i].open <==> s.attached == Some(i)) && Queued(s.channels[i]) <= BUFFER
    ensures WasReplaced(s, i) <==>
              s.records[i].cause.Replaced? && forall j :: i < j < |s.records| ==> !s.records[j].cause.Replaced?
  {
    assert Disciplined(s, i);
    forall j | i < j < |s.records| && s.records[j].cause.Replaced? ensures !WasReplaced(s, i) {
      assert Disciplined(s, j);
    }
    if s.records[i].cause.Replaced? && !WasReplaced(s, i) {
      assert s.records[s.replaced.value].cause.Replaced?;
    }
  }

  /** A closed channel stays closed and is sent nothing, and chunks once sent stay in order. */
  predicate Sealed(c: Channel, c': Channel) {
    (!c.open ==> !c'.open && c'.sent == c.sent) && c.sent <= c'.sent
  }

  lemma DropSeals(s: Session, until: nat, cause: Cause, dropped: Bytes, i: nat)
    requires Known(s) && i < |s.channels|
    ensures var s' := DropAttached(s, until, cause, dropped); |s'.channels| == |s.channels| && Sealed(s.channels[i], s'.channels[i])
  {
  }

  lemma DeliverSeals(s: Session, chunk: Bytes, i: nat)
    requires Inv(s) && i < |s.channels|
    ensures var s' := Deliver(s, chunk); |s'.channels| == |s.channels| && Sealed(s.channels[i], s'.channels[i])
  {
    assert Disciplined(s, i);
  }

  lemma StepKeepsClosed(s: Session, a: Action, i: nat)
    requires Inv(s) && i < |s.channels|
    ensures var s' := Step(s, a); i < |s'.channels| && Sealed(s.channels[i], s'.channels[i])
  {
    match a
    case DoAttach => DropSeals(s, |s.output|, Replaced, [], i);
    case DoDetach(_) => DropSeals(s, |s.output|, Detached, [], i);
    case DoDeliver(chunk) => DeliverSeals(s, chunk, i);
    case DoExit => DropSeals(s, |s.output|, Ended, [], i);
    case DoReceive(_) =>
  }

  /** So a channel is closed once and for all: whatever follows, nothing more is ever sent on it. */
  lemma {:induction false} ClosedIsForever(actions: seq<Action>, more: seq<Action>, i: nat)
    requires i < |Run(actions).channels|
    ensures var s, s' := Run(actions), Run(actions + more);
            && i < |s'.channels|
            && (!s.channels[i].open ==> !s'.channels[i].open && s'.channels[i].sent == s.channels[i].sent)
            && s.channels[i].sent <= s'.channels[i].sent
  {
    if more == [] {
      assert actions + more == actions;
    } else {
      var n := |more| - 1;
      assert (actions + more)[..|actions + more| - 1] == actions + more[..n];
      ClosedIsForever(actions, more[..n], i);
      RunKeeps(actions + more[..n]);
      StepKeepsClosed(Run(actions + more[..n]), more[n], i);
    }
  }

  // ---- what each step does ------------------------------------------------------------

  /** The shell has exited exactly when it has been seen to. */
  lemma {:induction false} ExitedIff(actions: seq<Action>)
    ensures Run(actions).exited <==> DoExit in actions
  {
    if actions != [] {
      ExitedIff(actions[..|actions| - 1]);
      assert actions == actions[..|actions| - 1] + [actions[|actions| - 1]];
    }
  }

  /** All that the shell has written up to its exit. */
  function Written(actions: seq<Action>): Bytes {
    if actions == [] then []
    else
      var init, a := actions[..|actions| - 1], actions[|actions| - 1];
      Written(init) + if a.DoDeliver? && DoExit !in init then a.chunk else []
  }

  lemma StepWrites(s: Session, a: Action)
    requires Known(s)
    ensures Step(s, a).output == s.output + if a.DoDeliver? && !s.exited then a.chunk else []
  {
    assert s.output + [] == s.output;
  }

  lemma {:induction false} RunWrites(actions: seq<Action>)
    ensures Run(actions).output == Written(actions)
  {
    if actions != [] {
      var init := actions[..|actions| - 1];
      RunWrites(init);
      ExitedIff(init);
      StepWrites(Run(init), actions[|actions| - 1]);
    }
  }

  /** The output is what was written, and the scrollback its last 262144 bytes. */
  lemma OutputIsWritten(actions: seq<Action>)
    ensures var s := Run(actions);
            s.output == Written(actions)
            && s.scrollback == (if |s.output| <= 262144 then s.output else s.output[|s.output| - 262144..])
  {
    RunWrites(actions);
    RunKeeps(actions);
  }

  /** Any other channel, and what is noted of it. */
  predicate Unaffected(s: Session, s': Session, i: nat)
    requires Known(s) && Known(s') && i < |s.channels| <= |s'.channels|
  {
    s'.channels[i] == s.channels[i] && s'.records[i] == s.records[i]
  }

  ghost predicate OthersUnaffected(s: Session, s': Session, affected: Option<nat>)
    requires Known(s) && Known(s') && |s.channels| <= |s'.channels|
  {
    forall i :: 0 <= i < |s.channels| && Some(i) != affected ==> Unaffected(s, s', i)
  }

  /** Channel i closed for a reason, at the present output length; what was sent and taken stays. */
  predicate ClosedFor(s: Session, s': Session, i: nat, cause: Cause, dropped: Bytes)
    requires Known(s) && Known(s') && i < |s.channels| <= |s'.channels|
  {
    && s'.channels[i] == s.channels[i].(open := false)
    && s'.records[i] == s.records[i].(until := |s.output|, cause := cause, dropped := dropped)
  }

  /** Detaching closes the channel while it is the attached one, and else does nothing; either way the channel is then not
      open and not attached. No other channel is affected, nor is the scrollback. */
  lemma DetachCloses(actions: seq<Action>, c: nat)
    requires c < |Run(actions).channels|
    ensures var s, s' := Run(actions), Step(Run(actions), DoDetach(c));
            && |s'.channels| == |s.channels| && !s'.channels[c].open && s'.attached != Some(c)
            && (if s.attached == Some(c) then ClosedFor(s, s', c, Detached, []) && s'.attached.None? else s' == s)
            && OthersUnaffected(s, s', Some(c))
            && s'.scrollback == s.scrollback && s'.output == s.output && s'.replaced == s.replaced && s'.exited == s.exited
  {
    RunKeeps(actions);
    assert Disciplined(Run(actions), c);
  }

  /** Attaching takes the channel away from whoever has it, and hands out a fresh one with the scrollback: open, unless the
      shell has exited. */
  lemma AttachHandsOut(actions: seq<Action>)
    ensures var s, s' := Run(actions), Step(Run(actions), DoAttach);
            var c := |s.channels|;
            && |s'.channels| == c + 1 && s'.channels[c].sent == [] && s'.channels[c].received == 0
            && (s'.channels[c].open <==> DoExit !in actions)
            && s'.attached == (if DoExit in actions then None else Some(c))
            && s'.records[c].from == |s.output| && s'.records[c].replay == s.scrollback
            && (s.attached.Some? ==> ClosedFor(s, s', s.attached.value, Replaced, []) && s'.replaced == s.attached)
            && (s.attached.None? ==> s'.replaced == s.replaced)
            && OthersUnaffected(s, s', s.attached)
            && s'.scrollback == s.scrollback && s'.output == s.output && s'.exited == s.exited
  {
    RunKeeps(actions);
    ExitedIff(actions);
  }

  /** A chunk goes to the attached channel unless 256 are waiting there: then that channel is closed instead. */
  lemma DeliverHandsOver(actions: seq<Action>, chunk: Bytes)
    requires DoExit !in actions
    ensures var s, s' := Run(actions), Step(Run(actions), DoDeliver(chunk));
            && |s'.channels| == |s.channels| && s'.replaced == s.replaced && s'.exited == s.exited
            && (s.attached.None? ==> s'.attached.None?)
            && (s.attached.Some? ==>
                  var c := s.attached.value;
                  if Queued(s.channels[c]) < 256
                  then s'.attached == s.attached && s'.records[c] == s.records[c]
                       && s'.channels[c] == s.channels[c].(sent := s.channels[c].sent + [chunk])
                  else s'.attached.None? && ClosedFor(s, s', c, TooSlow, chunk))
            && OthersUnaffected(s, s', s.attached)
  {
    RunKeeps(actions);
    ExitedIff(actions);
  }

  /** A browser takes chunks in order, one at a time, as long as some wait; nothing else changes. */
  lemma ReceiveTakes(actions: seq<Action>, c: nat)
    ensures var s, s' := Run(actions), Step(Run(actions), DoReceive(c));
            s' == if c < |s.channels| && Queued(s.channels[c]) > 0
                  then s.(channels := s.channels[c := s.channels[c].(received := s.channels[c].received + 1)]) else s
  {
    RunKeeps(actions);
    if c < |Run(actions).channels| {
      ReceivedIsSent(Run(actions), c);
    }
  }

  lemma ReceivedIsSent(s: Session, c: nat)
    requires Inv(s) && c < |s.channels|
    ensures s.channels[c].received <= |s.channels[c].sent|
  {
    assert Disciplined(s, c);
  }

  /** What closes an open channel, and why. */
  function Closing(s: Session, a: Action, i: nat): Option<Cause>
    requires Known(s) && i < |s.channels|
  {
    match a
    case DoAttach => Some(Replaced)
    case DoDetach(c) => if c == i then Some(Detached) else None
    case DoDeliver(_) => if |s.channels[i].sent| - s.channels[i].received >= 256 then Some(TooSlow) else None
    case DoExit => Some(Ended)
    case DoReceive(_) => None
  }

  /** An open channel is closed by its own detach, a later attach, a chunk that finds 256 waiting, or the exit, and by nothing
      else; the reason and the output length are noted. */
  lemma ClosesIff(actions: seq<Action>, a: Action, i: nat)
    requires i < |Run(actions).channels| && Run(actions).channels[i].open
    ensures var s, s' := Run(actions), Step(Run(actions), a);
            && i < |s'.channels|
            && (s'.channels[i].open <==> Closing(s, a, i).None?)
            && (!s'.channels[i].open ==> s'.records[i].cause == Closing(s, a, i).value && s'.records[i].until == |s.output|)
  {
    RunKeeps(actions);
    assert Disciplined(Run(actions), i);
  }
}
