/**
 Relaying one connection. The stream path first lets both ends finish a pending write
 handshake ("kick"), then starts one copy per direction; the copies share a `done` flag,
 and the one that finds it already set runs the close handler. The packet path starts
 its copies at once, and the copy that sets the flag runs the handler.

 Each step below is one swap of the flag, one handler call, one close or one start of a
 goroutine. What the kernel and the peers do (results of writes, copies and half closes)
 is chosen by the events.
 */
module ConnectionCopy {
  import opened Wrappers

  datatype Mode = Stream | Packet

  datatype Side = Local | Remote

  /** Up copies from the local end to the remote end. */
  datatype Direction = Up | Down

  function Source(d: Direction): Side {
    if d.Up? then Local else Remote
  }

  function Destination(d: Direction): Side {
    if d.Up? then Remote else Local
  }

  function Other(d: Direction): Direction {
    if d.Up? then Down else Up
  }

  datatype Caller = Kick(d: Direction) | Copier(d: Direction)

  /** A run of the close handler: by whom, and whether it was given an error. */
  datatype Call = Call(caller: Caller, failed: bool)

  /** `handler` tells whether there is a close handler; `duplex` which ends can be half closed. */
  datatype Config = Config(mode: Mode, handler: bool, duplex: set<Side>)

  datatype Main =
    | Kicking(d: Direction)
    | KickFailed(d: Direction)          // before the swap
    | KickNotifying(d: Direction)
    | KickClosing(d: Direction)         // before closing the source
    | KickClosingLast(d: Direction)     // before closing the destination
    | Spawning(d: Direction)
    | Started
    | Abandoned(d: Direction)

  datatype PC =
    | Unborn
    | Copying
    | HalfClosing
    | Aborting                          // before closing the source, after an error
    | AbortingLast                      // before closing the destination
    | Finishing                         // before the swap
    | Notifying
    | Closing                           // before closing the source
    | ClosingLast                       // before closing the destination
    | Over

  datatype Copy = Copy(pc: PC, failed: bool)

  /** `first` and `second` are the callers that swapped the flag, in order: the flag is set when
      `first` is.  `closed` and `halfClosed` are the ends closed altogether or for writing. */
  datatype State = State(
    main: Main,
    up: Copy,
    down: Copy,
    first: Option<Caller>,
    second: Option<Caller>,
    calls: seq<Call>,
    closed: set<Side>,
    halfClosed: set<Side>)

  datatype Event =
    | Probe(need: bool, cached: bool, error: Option<bool>)   // outcome of a kick; `Some(benign)` for an error
    | Advance                                                // the next step of the main thread
    | Result(d: Direction, ok: bool)                         // a copy or a half close ends
    | Step(d: Direction)                                     // the next step of a copy

  function CopyOf(s: State, d: Direction): Copy {
    if d.Up? then s.up else s.down
  }

  function SetCopy(s: State, d: Direction, c: Copy): State {
    if d.Up? then s.(up := c) else s.(down := c)
  }

  function SetPC(s: State, d: Direction, pc: PC): State {
    SetCopy(s, d, CopyOf(s, d).(pc := pc))
  }

  /** The kick gives up: the handshake was needed and the write failed, except that without cached
      payload a benign error only means there is nothing to send yet. */
  predicate KickFails(need: bool, cached: bool, error: Option<bool>) {
    need && error.Some? && (cached || !error.value)
  }

  predicate Enabled(s: State, e: Event) {
    match e
    case Probe(_, _, _) => s.main.Kicking?
    case Advance => !s.main.Kicking? && !s.main.Started? && !s.main.Abandoned?
    case Result(d, _) => CopyOf(s, d).pc.Copying? || CopyOf(s, d).pc.HalfClosing?
    case Step(d) =>
      var pc := CopyOf(s, d).pc;
      !pc.Unborn? && !pc.Copying? && !pc.HalfClosing? && !pc.Over?
  }

  function Swap(s: State, caller: Caller): State {
    if s.first.None? then s.(first := Some(caller)) else s.(second := Some(caller))
  }

  function Notify(c: Config, s: State, call: Call): State {
    if c.handler then s.(calls := s.calls + [call]) else s
  }

  function CloseEnd(s: State, side: Side): State {
    s.(closed := s.closed + {side})
  }

  function AfterProbe(s: State, fails: bool): State
    requires s.main.Kicking?
  {
    var d := s.main.d;
    s.(main := if fails then KickFailed(d) else if d.Up? then Kicking(Down) else Spawning(Up))
  }

  function AfterAdvance(c: Config, s: State): State
    requires Enabled(s, Advance)
  {
    match s.main
    case KickFailed(d) =>
      Swap(s, Kick(d)).(main := if s.first.None? then KickNotifying(d) else KickClosing(d))
    case KickNotifying(d) => Notify(c, s, Call(Kick(d), true)).(main := KickClosing(d))
    case KickClosing(d) => CloseEnd(s, Source(d)).(main := KickClosingLast(d))
    case KickClosingLast(d) => CloseEnd(s, Destination(d)).(main := Abandoned(d))
    case Spawning(d) => SetPC(s, d, Copying).(main := if d.Up? then Spawning(Down) else Started)
  }

  /** A stream copy that ended well half closes the destination, or closes it when it cannot;
      after an error both ends are closed. A packet copy closes nothing yet. */
  function AfterResult(c: Config, s: State, d: Direction, ok: bool): State
    requires Enabled(s, Result(d, ok))
  {
    if c.mode.Packet? then SetCopy(s, d, Copy(Finishing, !ok))
    else if !ok then SetCopy(s, d, Copy(Aborting, true))
    else if CopyOf(s, d).pc.HalfClosing? then SetPC(s, d, Finishing).(halfClosed := s.halfClosed + {Destination(d)})
    else if Destination(d) in c.duplex then SetPC(s, d, HalfClosing)
    else SetPC(s, d, AbortingLast)
  }

  function AfterStep(c: Config, s: State, d: Direction): State
    requires Enabled(s, Step(d))
  {
    var copy := CopyOf(s, d);
    match copy.pc
    case Aborting => CloseEnd(SetPC(s, d, AbortingLast), Source(d))
    case AbortingLast => CloseEnd(SetPC(s, d, Finishing), Destination(d))
    case Finishing =>
      var notify := if c.mode.Stream? then s.first.Some? else s.first.None?;
      Swap(SetPC(s, d, if notify then Notifying else if c.mode.Stream? then Over else Closing), Copier(d))
    case Notifying => Notify(c, SetPC(s, d, Closing), Call(Copier(d), copy.failed))
    case Closing => CloseEnd(SetPC(s, d, ClosingLast), Source(d))
    case ClosingLast => CloseEnd(SetPC(s, d, Over), Destination(d))
  }

  function Apply(c: Config, s: State, e: Event): State
    requires Enabled(s, e)
  {
    match e
    case Probe(need, cached, error) => AfterProbe(s, KickFails(need, cached, error))
    case Advance => AfterAdvance(c, s)
    case Result(d, ok) => AfterResult(c, s, d, ok)
    case Step(d) => AfterStep(c, s, d)
  }

  const UNBORN := Copy(Unborn, false)

  function Initial(c: Config): State {
    State(if c.mode.Stream? then Kicking(Up) else Spawning(Up), UNBORN, UNBORN, None, None, [], {}, {})
  }

  function Exec(c: Config, s: State, trace: seq<Event>): Option<State>
    decreases |trace|
  {
    if trace == [] then Some(s)
    else if !Enabled(s, trace[0]) then None
    else Exec(c, Apply(c, s, trace[0]), trace[1..])
  }

  /** Nothing is left to do. */
  predicate Finished(s: State) {
    s.main.Abandoned? || (s.main.Started? && s.up.pc.Over? && s.down.pc.Over?)
  }

  // ------------------------------------------------------------------------ invariants

  predicate BothClosed(s: State) {
    Local in s.closed && Remote in s.closed
  }

  /** Past the swap of the flag. */
  predicate Swapped(pc: PC) {
    pc.Notifying? || pc.Closing? || pc.ClosingLast? || pc.Over?
  }

  /** The copy that has to run the handler: the second to swap in the stream path, the first in the
      packet path. */
  function Notifier(c: Config, s: State): Option<Caller> {
    if c.mode.Stream? then s.second else s.first
  }

  predicate CopyOk(c: Config, s: State, d: Direction) {
    var pc := CopyOf(s, d).pc;
    && (Swapped(pc) <==> s.first == Some(Copier(d)) || s.second == Some(Copier(d)))
    && (pc.Notifying? ==> Notifier(c, s) == Some(Copier(d)))
    && (c.mode.Stream? && (pc.Closing? || pc.ClosingLast?) ==> Notifier(c, s) == Some(Copier(d)))
    && (pc.ClosingLast? ==> Source(d) in s.closed)
    && (pc.Over? && (c.mode.Packet? || Notifier(c, s) == Some(Copier(d))) ==> BothClosed(s))
  }

  /** The flag has been swapped by different callers, never a second time without a first. */
  predicate SwapsOk(s: State) {
    s.second.Some? ==> s.first.Some? && s.first != s.second
  }

  /** What the main thread has done so far. */
  predicate MainOk(c: Config, s: State) {
    match s.main
    case Kicking(_) => s.up.pc.Unborn? && s.down.pc.Unborn? && s.first.None? && s.calls == []
    case KickFailed(_) => s.up.pc.Unborn? && s.down.pc.Unborn? && s.first.None? && s.calls == []
    case KickNotifying(d) =>
      s.up.pc.Unborn? && s.down.pc.Unborn? && s.first == Some(Kick(d)) && s.second.None? && s.calls == []
    case KickClosing(d) => KickDone(c, s, d)
    case KickClosingLast(d) => KickDone(c, s, d) && Source(d) in s.closed
    case Abandoned(d) => KickDone(c, s, d) && BothClosed(s)
    case Spawning(d) => s.down.pc.Unborn? && (d.Up? <==> s.up.pc.Unborn?)
    case Started => !s.up.pc.Unborn? && !s.down.pc.Unborn?
  }

  predicate KickDone(c: Config, s: State, d: Direction) {
    && s.up.pc.Unborn? && s.down.pc.Unborn? && s.first == Some(Kick(d)) && s.second.None?
    && s.calls == if c.handler then [Call(Kick(d), true)] else []
  }

  /** Only copies have swapped; the handler has run exactly when its copy is past that step. */
  predicate CopiesOnly(c: Config, s: State) {
    && (s.first.Some? ==> s.first.value.Copier?)
    && (s.second.Some? ==> s.second.value.Copier?)
    && s.calls ==
         if c.handler && Notifier(c, s).Some? && !CopyOf(s, Notifier(c, s).value.d).pc.Notifying?
         then [Call(Notifier(c, s).value, CopyOf(s, Notifier(c, s).value.d).failed)]
         else []
  }

  predicate HandlerOk(c: Config, s: State) {
    s.main.Spawning? || s.main.Started? ==> CopiesOnly(c, s)
  }

  predicate Inv(c: Config, s: State) {
    SwapsOk(s) && MainOk(c, s) && HandlerOk(c, s) && CopyOk(c, s, Up) && CopyOk(c, s, Down)
  }

  lemma SwapsStep(c: Config, s: State, e: Event)
    requires Inv(c, s) && Enabled(s, e)
    ensures SwapsOk(Apply(c, s, e))
  {
  }

  lemma MainStep(c: Config, s: State, e: Event)
    requires Inv(c, s) && Enabled(s, e) && (e.Probe? || e.Advance?)
    ensures MainOk(c, Apply(c, s, e)) && HandlerOk(c, Apply(c, s, e))
  {
  }

  lemma CopyUnderMain(c: Config, s: State, e: Event, d: Direction)
    requires Inv(c, s) && Enabled(s, e) && (e.Probe? || e.Advance?)
    ensures CopyOk(c, Apply(c, s, e), d)
  {
  }

  lemma MainUnderResult(c: Config, s: State, d: Direction, ok: bool)
    requires Inv(c, s) && Enabled(s, Result(d, ok))
    ensures MainOk(c, AfterResult(c, s, d, ok)) && HandlerOk(c, AfterResult(c, s, d, ok))
  {
    assert CopiesOnly(c, s) && CopyOk(c, s, d);
  }

  lemma CopyUnderResult(c: Config, s: State, e: Event, d: Direction)
    requires Inv(c, s) && Enabled(s, e) && e.Result?
    ensures CopyOk(c, Apply(c, s, e), d)
  {
  }

  /** A copy about to swap finds the flag free or swapped by the other copy only. */
  lemma RoomToSwap(c: Config, s: State, d: Direction)
    requires Inv(c, s) && CopyOf(s, d).pc.Finishing?
    ensures s.second.None? && CopiesOnly(c, s)
    ensures s.first.Some? ==> s.first == Some(Copier(Other(d)))
  {
    assert CopyOk(c, s, d);
    assert CopiesOnly(c, s);
    assert s.first.Some? ==> s.first.value.d == Other(d);
    assert s.second.Some? ==> s.second.value.d == Other(d);
  }

  lemma HandlerUnderStep(c: Config, s: State, d: Direction)
    requires Inv(c, s) && Enabled(s, Step(d)) && CopiesOnly(c, s)
    ensures CopiesOnly(c, AfterStep(c, s, d))
  {
    assert CopyOk(c, s, d);
    if CopyOf(s, d).pc.Finishing? {
      RoomToSwap(c, s, d);
    } else {
      var r := AfterStep(c, s, d);
      assert r.first == s.first && r.second == s.second;
      assert CopyOf(r, Other(d)) == CopyOf(s, Other(d)) && CopyOf(r, d).failed == CopyOf(s, d).failed;
    }
  }

  lemma MainUnderStep(c: Config, s: State, d: Direction)
    requires Inv(c, s) && Enabled(s, Step(d))
    ensures MainOk(c, AfterStep(c, s, d)) && s.main == AfterStep(c, s, d).main && CopiesOnly(c, s)
  {
  }

  lemma CopyStep(c: Config, s: State, d: Direction)
    requires Inv(c, s) && Enabled(s, Step(d))
    ensures CopyOk(c, AfterStep(c, s, d), d)
  {
  }

  lemma CopyUnderOther(c: Config, s: State, d: Direction)
    requires Inv(c, s) && Enabled(s, Step(d))
    ensures CopyOk(c, AfterStep(c, s, d), Other(d))
  {
    if CopyOf(s, d).pc.Finishing? {
      RoomToSwap(c, s, d);
    }
  }

  lemma InvStep(c: Config, s: State, e: Event)
    requires Inv(c, s) && Enabled(s, e)
    ensures Inv(c, Apply(c, s, e))
  {
    SwapsStep(c, s, e);
    match e
    case Result(d, ok) =>
      MainUnderResult(c, s, d, ok);
      CopyUnderResult(c, s, e, Up);
      CopyUnderResult(c, s, e, Down);
    case Step(d) =>
      MainUnderStep(c, s, d);
      HandlerUnderStep(c, s, d);
      CopyStep(c, s, d);
      CopyUnderOther(c, s, d);
    case _ =>
      MainStep(c, s, e);
      CopyUnderMain(c, s, e, Up);
      CopyUnderMain(c, s, e, Down);
  }

  lemma {:induction false} InvRun(c: Config, s: State, trace: seq<Event>)
    requires Inv(c, s) && Exec(c, s, trace).Some?
    ensures Inv(c, Exec(c, s, trace).value)
    decreases |trace|
  {
    if trace == [] {
    } else {
      InvStep(c, s, trace[0]);
      InvRun(c, Apply(c, s, trace[0]), trace[1..]);
    }
  }

  // -------------------------------------------------------------------------- theorems

  /** The handler never runs twice. A kick runs it only when no copy was started; a stream copy runs
      it only when the other copy has nothing left to do; a packet copy only as the first to end. */
  lemma HandlerRunsAtMostOnce(c: Config, trace: seq<Event>, s: State)
    requires Exec(c, Initial(c), trace) == Some(s)
    ensures |s.calls| <= 1 && (!c.handler ==> s.calls == [])
    ensures forall call <- s.calls ::
              match call.caller
              case Kick(d) => call.failed && s.up.pc.Unborn? && s.down.pc.Unborn?
              case Copier(d) =>
                && call.failed == CopyOf(s, d).failed
                && if c.mode.Stream? then s.second == Some(Copier(d)) && CopyOf(s, Other(d)).pc.Over?
                   else s.first == Some(Copier(d))
  {
    InvRun(c, Initial(c), trace);
    if s.calls != [] && s.calls[0].caller.Copier? {
      var d := s.calls[0].caller.d;
      assert CopyOk(c, s, d) && CopyOk(c, s, Other(d));
      if c.mode.Stream? {
        assert CopiesOnly(c, s) && s.second == Some(Copier(d));
        assert s.first.value.d == Other(d);
      }
    }
  }

  /** When nothing is left to do, both ends are closed and the handler, if any, has run exactly once:
      by the failed kick, by the last stream copy to end, or by the first packet copy to end. */
  lemma HandlerRunsOnce(c: Config, trace: seq<Event>, s: State)
    requires Exec(c, Initial(c), trace) == Some(s) && Finished(s)
    ensures |s.calls| == if c.handler then 1 else 0
    ensures BothClosed(s)
    ensures s.main.Started? ==>
              exists d :: s.first == Some(Copier(d)) && s.second == Some(Copier(Other(d)))
    ensures c.handler ==>
              s.calls[0].caller ==
                if s.main.Abandoned? then Kick(s.main.d)
                else if c.mode.Stream? then s.second.value else s.first.value
  {
    InvRun(c, Initial(c), trace);
    if s.main.Started? {
      assert CopyOk(c, s, Up) && CopyOk(c, s, Down);
      var d := s.first.value.d;
      assert s.second == Some(Copier(Other(d)));
    }
  }

  // ----------------------------------------------------------------------- runs come to an end

  function MainRank(m: Main): nat {
    match m
    case Kicking(d) => if d.Up? then 32 else 31
    case Spawning(d) => if d.Up? then 30 else 20
    case KickFailed(_) => 4
    case KickNotifying(_) => 3
    case KickClosing(_) => 2
    case KickClosingLast(_) => 1
    case _ => 0
  }

  function CopyRank(pc: PC): nat {
    match pc
    case Copying => 8
    case HalfClosing => 7
    case Aborting => 6
    case AbortingLast => 5
    case Finishing => 4
    case Notifying => 3
    case Closing => 2
    case ClosingLast => 1
    case _ => 0
  }

  function Rank(s: State): nat {
    MainRank(s.main) + CopyRank(s.up.pc) + CopyRank(s.down.pc)
  }

  lemma MainRankFalls(c: Config, s: State, e: Event)
    requires Enabled(s, e) && MainOk(c, s) && (e.Probe? || e.Advance?)
    ensures Rank(Apply(c, s, e)) < Rank(s)
  {
  }

  lemma CopyRankFalls(c: Config, s: State, e: Event)
    requires Enabled(s, e) && (e.Result? || e.Step?)
    ensures Rank(Apply(c, s, e)) < Rank(s)
  {
    var r := Apply(c, s, e);
    assert r.main == s.main && CopyOf(r, Other(e.d)) == CopyOf(s, Other(e.d));
    assert CopyRank(CopyOf(r, e.d).pc) < CopyRank(CopyOf(s, e.d).pc);
  }

  lemma {:induction false} RunIsBounded(c: Config, s: State, trace: seq<Event>)
    requires Inv(c, s) && Exec(c, s, trace).Some?
    ensures |trace| + Rank(Exec(c, s, trace).value) <= Rank(s)
    decreases |trace|
  {
    if trace == [] {
    } else {
      if trace[0].Probe? || trace[0].Advance? {
        MainRankFalls(c, s, trace[0]);
      } else {
        CopyRankFalls(c, s, trace[0]);
      }
      InvStep(c, s, trace[0]);
      RunIsBounded(c, Apply(c, s, trace[0]), trace[1..]);
    }
  }

  /** Every run is at most 32 steps long, and a run that cannot go on is finished: whatever the
      interleaving, the handler runs and both ends get closed. */
  lemma RunsFinish(c: Config, trace: seq<Event>, s: State)
    requires Exec(c, Initial(c), trace) == Some(s)
    ensures |trace| <= 32
    ensures Finished(s) <==> forall e :: !Enabled(s, e)
  {
    InvRun(c, Initial(c), trace);
    RunIsBounded(c, Initial(c), trace);
    if !Finished(s) {
      assert Enabled(s, Advance) || Enabled(s, Probe(false, false, None))
          || Enabled(s, Result(Up, true)) || Enabled(s, Result(Down, true))
          || Enabled(s, Step(Up)) || Enabled(s, Step(Down));
    }
  }

  // ------------------------------------------------------------- how a copy leaves the ends

  /** Through with its copying and with closing what it closes by itself. */
  predicate Ended(pc: PC) {
    pc.Finishing? || Swapped(pc)
  }

  /** In the stream path, a copy that failed has closed both ends; one that ended well has told its
      destination that nothing more comes, by a half close where there is one. */
  predicate EndOk(c: Config, s: State, d: Direction) {
    var copy := CopyOf(s, d);
    c.mode.Stream? ==>
      && (copy.pc.Unborn? || copy.pc.Copying? || copy.pc.HalfClosing? ==> !copy.failed)
      && (copy.pc.Aborting? ==> copy.failed)
      && (copy.pc.AbortingLast? ==> if copy.failed then Source(d) in s.closed else Destination(d) !in c.duplex)
      && (copy.pc.HalfClosing? ==> Destination(d) in c.duplex)
      && (Ended(copy.pc) ==>
            if copy.failed then BothClosed(s)
            else if Destination(d) in c.duplex then Destination(d) in s.halfClosed
            else Destination(d) in s.closed)
  }

  lemma EndUnderMain(c: Config, s: State, e: Event, d: Direction)
    requires EndOk(c, s, d) && Enabled(s, e) && (e.Probe? || e.Advance?) && MainOk(c, s)
    ensures EndOk(c, Apply(c, s, e), d)
  {
  }

  lemma EndUnderOther(c: Config, s: State, e: Event, d: Direction)
    requires EndOk(c, s, d) && Enabled(s, e) && (e.Result? || e.Step?) && e.d != d
    ensures EndOk(c, Apply(c, s, e), d)
  {
    var r := Apply(c, s, e);
    assert CopyOf(r, d) == CopyOf(s, d) && s.closed <= r.closed && s.halfClosed <= r.halfClosed;
  }

  lemma EndUnderOwn(c: Config, s: State, e: Event)
    requires Enabled(s, e) && (e.Result? || e.Step?) && EndOk(c, s, e.d)
    ensures EndOk(c, Apply(c, s, e), e.d)
  {
  }

  lemma EndStep(c: Config, s: State, e: Event, d: Direction)
    requires EndOk(c, s, d) && Enabled(s, e) && MainOk(c, s)
    ensures EndOk(c, Apply(c, s, e), d)
  {
    if e.Probe? || e.Advance? {
      EndUnderMain(c, s, e, d);
    } else if e.d == d {
      EndUnderOwn(c, s, e);
    } else {
      EndUnderOther(c, s, e, d);
    }
  }

  /** Nothing went wrong so far, and the relay is not being wound up yet. */
  predicate Flowing(s: State) {
    && !s.up.failed && !s.down.failed && s.second.None?
    && (s.main.Kicking? || s.main.Spawning? || s.main.Started?)
  }

  /** While the relay flows, an end is closed only if it cannot be half closed and the copy that writes
      to it has ended. */
  predicate FlowOk(c: Config, s: State, d: Direction) {
    c.mode.Stream? && Flowing(s) ==>
      (Destination(d) in s.closed ==> Destination(d) !in c.duplex && Ended(CopyOf(s, d).pc))
  }

  lemma FlowStep(c: Config, s: State, e: Event, d: Direction)
    requires Inv(c, s) && EndOk(c, s, Up) && EndOk(c, s, Down) && FlowOk(c, s, d) && Enabled(s, e)
    ensures FlowOk(c, Apply(c, s, e), d)
  {
  }

  lemma {:induction false} EndsRun(c: Config, s: State, trace: seq<Event>)
    requires Inv(c, s) && EndOk(c, s, Up) && EndOk(c, s, Down) && FlowOk(c, s, Up) && FlowOk(c, s, Down)
    requires Exec(c, s, trace).Some?
    ensures var r := Exec(c, s, trace).value;
            EndOk(c, r, Up) && EndOk(c, r, Down) && FlowOk(c, r, Up) && FlowOk(c, r, Down)
    decreases |trace|
  {
    if trace == [] {
    } else {
      InvStep(c, s, trace[0]);
      EndStep(c, s, trace[0], Up);
      EndStep(c, s, trace[0], Down);
      FlowStep(c, s, trace[0], Up);
      FlowStep(c, s, trace[0], Down);
      EndsRun(c, Apply(c, s, trace[0]), trace[1..]);
    }
  }

  /** A kick that had to write and could not: with payload at hand any error counts, without it only an
      error that is not benign. */
  predicate FailingProbe(e: Event) {
    e.Probe? && e.need && e.error.Some? && (e.cached || !e.error.value)
  }

  /** What the events so far say of a copy. */
  predicate CopyFitsPast(s: State, past: seq<Event>, d: Direction) {
    var copy := CopyOf(s, d);
    && (copy.failed <==> Result(d, false) in past)
    && (copy.pc.Unborn? || copy.pc.Copying? || copy.pc.HalfClosing? ==> !copy.failed)
  }

  /** What they say of the kicks. */
  ghost predicate KicksFitPast(s: State, past: seq<Event>) {
    (exists e <- past :: FailingProbe(e)) <==> !s.main.Kicking? && !s.main.Spawning? && !s.main.Started?
  }

  lemma CopyPastStep(c: Config, s: State, past: seq<Event>, e: Event, d: Direction)
    requires CopyFitsPast(s, past, d) && Enabled(s, e) && (e.Advance? ==> MainOk(c, s))
    ensures CopyFitsPast(Apply(c, s, e), past + [e], d)
  {
    assert Result(d, false) in past + [e] <==> Result(d, false) in past || e == Result(d, false);
  }

  lemma KicksPastStep(c: Config, s: State, past: seq<Event>, e: Event)
    requires KicksFitPast(s, past) && Enabled(s, e)
    ensures KicksFitPast(Apply(c, s, e), past + [e])
  {
    if w :| w in past && FailingProbe(w) {
      assert w in past + [e];
    } else if FailingProbe(e) {
      assert e in past + [e];
    }
  }

  lemma {:induction false} PastRun(c: Config, s: State, past: seq<Event>, trace: seq<Event>)
    requires Inv(c, s) && CopyFitsPast(s, past, Up) && CopyFitsPast(s, past, Down) && KicksFitPast(s, past)
    requires Exec(c, s, trace).Some?
    ensures var r := Exec(c, s, trace).value;
            CopyFitsPast(r, past + trace, Up) && CopyFitsPast(r, past + trace, Down) && KicksFitPast(r, past + trace)
    decreases |trace|
  {
    if trace == [] {
      assert past + trace == past;
    } else {
      InvStep(c, s, trace[0]);
      CopyPastStep(c, s, past, trace[0], Up);
      CopyPastStep(c, s, past, trace[0], Down);
      KicksPastStep(c, s, past, trace[0]);
      PastRun(c, Apply(c, s, trace[0]), past + [trace[0]], trace[1..]);
      assert past + [trace[0]] + trace[1..] == past + trace;
    }
  }

  /** In every run the relay is given up for a kick if and only if some kick had to write and could not;
      a copy counts as failed if and only if its copying or its half close failed. */
  lemma FailuresAreReal(c: Config, trace: seq<Event>, s: State)
    requires Exec(c, Initial(c), trace) == Some(s)
    ensures s.main.Abandoned? ==> exists e <- trace :: FailingProbe(e)
    ensures (exists e <- trace :: FailingProbe(e)) ==> !s.main.Spawning? && !s.main.Started? && !s.main.Kicking?
    ensures forall d: Direction :: CopyOf(s, d).failed <==> Result(d, false) in trace
  {
    PastRun(c, Initial(c), [], trace);
    assert [] + trace == trace;
    forall d: Direction ensures CopyOf(s, d).failed <==> Result(d, false) in trace {
      assert CopyFitsPast(s, trace, Up) && CopyFitsPast(s, trace, Down) && (d == Up || d == Down);
    }
  }

  /** While a copy is at work the relay is not being wound up. */
  lemma StillFlowing(c: Config, s: State, d: Direction)
    requires Inv(c, s) && CopyOf(s, d).pc.Copying?
    ensures s.second.None? && (s.main.Spawning? || s.main.Started?)
  {
    assert CopyOk(c, s, d);
    assert CopiesOnly(c, s);
    assert s.first.Some? ==> s.first.value.d == Other(d);
    assert s.second.Some? ==> s.second.value.d == Other(d);
  }

  /** In every stream run a copy that failed leaves both ends closed. One that ended well leaves its
      destination half closed, or closed if it cannot be; as long as nothing failed and the other copy is
      still at work, that is all that is closed, so the other direction goes on. */
  lemma EndsAreLeftRight(c: Config, trace: seq<Event>, s: State, d: Direction)
    requires Exec(c, Initial(c), trace) == Some(s) && c.mode.Stream?
    ensures Ended(CopyOf(s, d).pc) ==>
              if Result(d, false) in trace then BothClosed(s)
              else if Destination(d) in c.duplex then Destination(d) in s.halfClosed
              else Destination(d) in s.closed
    ensures CopyOf(s, d).pc.Copying? && Result(Other(d), false) !in trace ==>
              && Destination(d) !in s.closed
              && (Source(d) in s.closed ==> Source(d) !in c.duplex && Ended(CopyOf(s, Other(d)).pc))
  {
    InvRun(c, Initial(c), trace);
    EndsRun(c, Initial(c), trace);
    FailuresAreReal(c, trace, s);
    assert EndOk(c, s, d) && FlowOk(c, s, d) && FlowOk(c, s, Other(d));
    assert CopyOf(s, d).failed <==> Result(d, false) in trace;
    assert CopyOf(s, Other(d)).failed <==> Result(Other(d), false) in trace;
    if CopyOf(s, d).pc.Copying? {
      StillFlowing(c, s, d);
      assert Other(Other(d)) == d && Source(d) == Destination(Other(d));
      assert CopyOf(s, d).failed || CopyOf(s, Other(d)).failed || Flowing(s);
    }
  }
}
