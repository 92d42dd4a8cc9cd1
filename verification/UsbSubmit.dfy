/**
 Requests to a provided USB device. Submit numbers a request, registers a one-place
 response channel under that number, sends the request and waits; deliver hands a
 response to the channel registered under the response's number; close marks the
 device and removes it from its provider.

 `Device` holds the shared fields and the sections that run under the mutex. The state
 machine interleaves any number of calls at the granularity of those sections and of
 single channel operations. A response channel is named by the call that made it.
 */
module UsbSubmit {
  import opened Wrappers

  const WRAP := 0x1_0000_0000_0000_0000

  type Thread = nat
  type Seq = n: nat | n < WRAP

  /** A response: its number and everything else it carries. */
  datatype Response = Response(seqNo: Seq, payload: string)

  datatype Outcome = Detached | Failed | Answered(response: Response)

  // ------------------------------------------------------------------ the shared fields

  datatype Core = Core(counter: Seq, pending: map<Seq, Thread>, closed: bool)

  function Count(c: Core): Core {
    c.(counter := (c.counter + 1) % WRAP)
  }

  function Register(c: Core, q: Seq, t: Thread): Core {
    if c.closed then c else c.(pending := c.pending[q := t])
  }

  function Unregister(c: Core, q: Seq): Core {
    c.(pending := c.pending - {q})
  }

  function Find(c: Core, q: Seq): Option<Thread> {
    if q in c.pending then Some(c.pending[q]) else None
  }

  function Close(c: Core): Core {
    c.(closed := true)
  }

  class Device {
    var counter: Seq
    var pending: map<Seq, Thread>
    var closed: bool

    ghost function Contents(): Core
      reads this
    {
      Core(counter, pending, closed)
    }

    constructor ()
      ensures Contents() == Core(0, map[], false)
    {
      counter, pending, closed := 0, map[], false;
    }

    method NextSeq() returns (q: Seq)
      modifies this
      ensures Contents() == Count(old(Contents())) && q == counter
    {
      counter := if counter == WRAP - 1 then 0 else counter + 1;
      q := counter;
    }

    method TryRegister(q: Seq, channel: Thread) returns (accepted: bool)
      modifies this
      ensures Contents() == Register(old(Contents()), q, channel)
      ensures accepted == !old(closed)
    {
      if closed {
        return false;
      }
      pending := pending[q := channel];
      return true;
    }

    method Forget(q: Seq)
      modifies this
      ensures Contents() == Unregister(old(Contents()), q)
    {
      pending := pending - {q};
    }

    method LookUp(q: Seq) returns (channel: Option<Thread>)
      ensures channel == Find(Contents(), q)
    {
      channel := None;
      if q in pending {
        channel := Some(pending[q]);
      }
    }

    method MarkClosed() returns (first: bool)
      modifies this
      ensures Contents() == Close(old(Contents()))
      ensures first == !old(closed)
    {
      if closed {
        return false;
      }
      closed := true;
      return true;
    }
  }

  // ------------------------------------------------------------------- the interleavings

  datatype PC =
    | Numbered(seqNo: Seq)                               // Submit, before it registers
    | Registered(seqNo: Seq)                             // Submit, before the send
    | Waiting(seqNo: Seq)                                // Submit, in the select
    | Leaving(seqNo: Seq, outcome: Outcome)              // Submit, before the deferred delete
    | Submitted(seqNo: Seq, result: Outcome)             // Submit returned
    | Delivering(channel: Thread, response: Response)    // deliver, before the channel operation
    | Delivered
    | Removing                                           // close, before RemoveDevice
    | Closed

  /** `issued` counts the Submit calls; `channels` are the filled response channels;
      `remover` is the call that flipped the closed flag. */
  datatype State = State(
    core: Core,
    issued: nat,
    calls: map<Thread, PC>,
    channels: map<Thread, Response>,
    remover: Option<Thread>,
    removals: nat)

  datatype Event =
    | Submit
    | Enroll
    | Send(ok: bool)
    | Cancel
    | Receive
    | Leave
    | Lookup(response: Response)
    | Put
    | Mark
    | RemoveDevice

  /** The first step of a call is taken by a thread that has not called yet. */
  predicate Enabled(s: State, t: Thread, e: Event) {
    if e.Submit? || e.Lookup? || e.Mark? then t !in s.calls
    else
      t in s.calls &&
      match e
      case Enroll => s.calls[t].Numbered?
      case Send(_) => s.calls[t].Registered?
      case Cancel => s.calls[t].Waiting?
      case Receive => s.calls[t].Waiting? && t in s.channels
      case Leave => s.calls[t].Leaving?
      case Put => s.calls[t].Delivering?
      case RemoveDevice => s.calls[t].Removing?
  }

  function Goto(s: State, t: Thread, pc: PC): State {
    s.(calls := s.calls[t := pc])
  }

  /** `named` tells whether the provider gave the device a bus id. */
  function Apply(s: State, t: Thread, e: Event, named: bool): State
    requires Enabled(s, t, e)
  {
    match e
    case Submit =>
      var core := Count(s.core);
      Goto(s.(core := core, issued := s.issued + 1), t, Numbered(core.counter))
    case Enroll =>
      var q := s.calls[t].seqNo;
      if s.core.closed then Goto(s, t, Submitted(q, Detached))
      else Goto(s.(core := Register(s.core, q, t)), t, Registered(q))
    case Send(ok) =>
      var q := s.calls[t].seqNo;
      if ok then Goto(s, t, Waiting(q)) else Goto(s, t, Leaving(q, Failed))
    case Cancel => Goto(s, t, Leaving(s.calls[t].seqNo, Failed))
    case Receive =>
      Goto(s.(channels := s.channels - {t}), t, Leaving(s.calls[t].seqNo, Answered(s.channels[t])))
    case Leave =>
      var q := s.calls[t].seqNo;
      Goto(s.(core := Unregister(s.core, q)), t, Submitted(q, s.calls[t].outcome))
    case Lookup(response) =>
      var found := Find(s.core, response.seqNo);
      Goto(s, t, if found.Some? then Delivering(found.value, response) else Delivered)
    case Put =>
      var c := s.calls[t].channel;
      Goto(if c in s.channels then s else s.(channels := s.channels[c := s.calls[t].response]), t, Delivered)
    case Mark =>
      if s.core.closed then Goto(s, t, Closed)
      else Goto(s.(core := Close(s.core), remover := Some(t)), t, Removing)
    case RemoveDevice =>
      Goto(s.(removals := s.removals + if named then 1 else 0), t, Closed)
  }

  const INITIAL := State(Core(0, map[], false), 0, map[], map[], None, 0)

  function Exec(s: State, trace: seq<(Thread, Event)>, named: bool): Option<State>
    decreases |trace|
  {
    if trace == [] then Some(s)
    else if !Enabled(s, trace[0].0, trace[0].1) then None
    else Exec(Apply(s, trace[0].0, trace[0].1, named), trace[1..], named)
  }

  // ------------------------------------------------------------------------- invariants

  /** `t` is a Submit call with number `q`. */
  predicate Numbers(s: State, t: Thread, q: Seq) {
    t in s.calls &&
    match s.calls[t]
    case Numbered(n) => n == q
    case Registered(n) => n == q
    case Waiting(n) => n == q
    case Leaving(n, _) => n == q
    case Submitted(n, _) => n == q
    case _ => false
  }

  /** `t` is a Submit call that has registered and not yet unregistered. */
  predicate InFlight(s: State, t: Thread) {
    t in s.calls && (s.calls[t].Registered? || s.calls[t].Waiting? || s.calls[t].Leaving?)
  }

  /** What a call holds carries the right number. */
  predicate CallOk(s: State, t: Thread) {
    t in s.calls ==>
      match s.calls[t]
      case Leaving(q, Answered(response)) => response.seqNo == q
      case Submitted(q, Answered(response)) => response.seqNo == q
      case Delivering(channel, response) => Numbers(s, channel, response.seqNo)
      case Removing => s.remover == Some(t)
      case _ => true
  }

  predicate ChannelOk(s: State, t: Thread) {
    t in s.channels ==> Numbers(s, t, s.channels[t].seqNo)
  }

  predicate PendingOk(s: State, q: Seq) {
    q in s.core.pending ==> InFlight(s, s.core.pending[q]) && Numbers(s, s.core.pending[q], q)
  }

  /** The device is removed by whoever flipped the flag, once. */
  predicate RemovalOk(s: State, named: bool) {
    && (s.core.closed <==> s.remover.Some?)
    && (s.remover.Some? ==>
          && s.remover.value in s.calls
          && (s.calls[s.remover.value].Removing? || s.calls[s.remover.value].Closed?))
    && s.removals == if named && s.remover.Some? && s.calls[s.remover.value].Closed? then 1 else 0
  }

  ghost predicate Inv(s: State, named: bool) {
    && (forall t :: CallOk(s, t) && ChannelOk(s, t))
    && (forall q :: PendingOk(s, q))
    && RemovalOk(s, named)
  }

  /** A call keeps its number. */
  lemma NumbersStep(s: State, t: Thread, e: Event, named: bool, u: Thread, q: Seq)
    requires Enabled(s, t, e) && Numbers(s, u, q)
    ensures Numbers(Apply(s, t, e, named), u, q)
  {
  }

  lemma CallStep(s: State, t: Thread, e: Event, named: bool, u: Thread)
    requires Enabled(s, t, e) && CallOk(s, u) && CallOk(s, t) && ChannelOk(s, t) && RemovalOk(s, named)
    requires e.Lookup? ==> PendingOk(s, e.response.seqNo)
    ensures CallOk(Apply(s, t, e, named), u)
  {
    if u in s.calls && s.calls[u].Delivering? {
      NumbersStep(s, t, e, named, s.calls[u].channel, s.calls[u].response.seqNo);
    }
  }

  lemma ChannelStep(s: State, t: Thread, e: Event, named: bool, u: Thread)
    requires Enabled(s, t, e) && CallOk(s, t) && ChannelOk(s, u)
    ensures ChannelOk(Apply(s, t, e, named), u)
  {
    if u in s.channels {
      NumbersStep(s, t, e, named, u, s.channels[u].seqNo);
    }
  }

  lemma PendingStep(s: State, t: Thread, e: Event, named: bool, q: Seq)
    requires Enabled(s, t, e) && PendingOk(s, q)
    ensures PendingOk(Apply(s, t, e, named), q)
  {
    if q in s.core.pending {
      NumbersStep(s, t, e, named, s.core.pending[q], q);
    }
  }

  lemma RemovalStep(s: State, t: Thread, e: Event, named: bool)
    requires Enabled(s, t, e) && CallOk(s, t) && RemovalOk(s, named)
    ensures RemovalOk(Apply(s, t, e, named), named)
  {
  }

  lemma InvStep(s: State, t: Thread, e: Event, named: bool)
    requires Inv(s, named) && Enabled(s, t, e)
    ensures Inv(Apply(s, t, e, named), named)
  {
    var r := Apply(s, t, e, named);
    forall u ensures CallOk(r, u) && ChannelOk(r, u) {
      CallStep(s, t, e, named, u);
      ChannelStep(s, t, e, named, u);
    }
    forall q ensures PendingOk(r, q) {
      PendingStep(s, t, e, named, q);
    }
    RemovalStep(s, t, e, named);
  }

  lemma {:induction false} InvRun(s: State, trace: seq<(Thread, Event)>, named: bool)
    requires Inv(s, named) && Exec(s, trace, named).Some?
    ensures Inv(Exec(s, trace, named).value, named)
    decreases |trace|
  {
    if trace == [] {
    } else {
      InvStep(s, trace[0].0, trace[0].1, named);
      InvRun(Apply(s, trace[0].0, trace[0].1, named), trace[1..], named);
    }
  }

  // --------------------------------------------------------------------------- theorems

  /** A Submit that returns a response returns one that carries its own number, even when the 64-bit
      counter has wrapped. */
  lemma AnswersMatch(trace: seq<(Thread, Event)>, named: bool, s: State, t: Thread)
    requires Exec(INITIAL, trace, named) == Some(s)
    requires t in s.calls && s.calls[t].Submitted? && s.calls[t].result.Answered?
    ensures s.calls[t].result.response.seqNo == s.calls[t].seqNo
  {
    InvRun(INITIAL, trace, named);
    assert CallOk(s, t);
  }

  /** The pending map holds only Submit calls in flight, each under its own number. */
  lemma PendingIsInFlight(trace: seq<(Thread, Event)>, named: bool, s: State, q: Seq)
    requires Exec(INITIAL, trace, named) == Some(s) && q in s.core.pending
    ensures InFlight(s, s.core.pending[q]) && s.calls[s.core.pending[q]].seqNo == q
  {
    InvRun(INITIAL, trace, named);
    assert PendingOk(s, q);
  }

  /** RemoveDevice is called at most once, only on a closed device that has a bus id; and exactly once
      when all calls of close have returned. */
  lemma RemovedOnce(trace: seq<(Thread, Event)>, named: bool, s: State)
    requires Exec(INITIAL, trace, named) == Some(s)
    ensures s.removals <= 1
    ensures s.removals == 1 ==> named && s.core.closed
    ensures named && s.core.closed && (forall t <- s.calls :: !s.calls[t].Removing?) ==> s.removals == 1
  {
    InvRun(INITIAL, trace, named);
  }

  // ----------------------------------------------- finding a request while numbers are fresh

  /** Numbers already given out are smaller than the counter, and no two calls share one. */
  ghost predicate Fresh(s: State) {
    && s.core.counter == s.issued
    && (forall t, q: Seq :: Numbers(s, t, q) ==> q <= s.issued)
    && (forall t, u, q: Seq :: Numbers(s, t, q) && Numbers(s, u, q) ==> t == u)
  }

  /** Every Submit call in flight is found under its number. */
  ghost predicate Found(s: State) {
    forall t <- s.calls :: InFlight(s, t) ==> Find(s.core, s.calls[t].seqNo) == Some(t)
  }

  lemma NumbersBack(s: State, t: Thread, e: Event, named: bool, u: Thread, q: Seq)
    requires Enabled(s, t, e) && Numbers(Apply(s, t, e, named), u, q)
    ensures Numbers(s, u, q) || (e.Submit? && u == t && q == Count(s.core).counter)
  {
  }

  lemma FreshStep(s: State, t: Thread, e: Event, named: bool)
    requires Fresh(s) && Enabled(s, t, e) && Apply(s, t, e, named).issued < WRAP
    ensures Fresh(Apply(s, t, e, named))
  {
    var r := Apply(s, t, e, named);
    forall u, q: Seq | Numbers(r, u, q)
      ensures q <= r.issued
    {
      NumbersBack(s, t, e, named, u, q);
    }
    forall u, v, q: Seq | Numbers(r, u, q) && Numbers(r, v, q)
      ensures u == v
    {
      NumbersBack(s, t, e, named, u, q);
      NumbersBack(s, t, e, named, v, q);
    }
  }

  lemma FoundStep(s: State, t: Thread, e: Event, named: bool)
    requires Fresh(s) && Found(s) && Enabled(s, t, e)
    ensures Found(Apply(s, t, e, named))
  {
    var r := Apply(s, t, e, named);
    forall u <- r.calls | InFlight(r, u)
      ensures Find(r.core, r.calls[u].seqNo) == Some(u)
    {
      if u != t {
        assert InFlight(s, u) && Numbers(s, u, s.calls[u].seqNo);
        assert e.Enroll? || e.Leave? ==> Numbers(s, t, s.calls[t].seqNo);
      }
    }
  }

  lemma {:induction false} FoundRun(s: State, trace: seq<(Thread, Event)>, named: bool)
    requires Fresh(s) && Found(s) && Exec(s, trace, named).Some? && Exec(s, trace, named).value.issued < WRAP
    ensures Fresh(Exec(s, trace, named).value) && Found(Exec(s, trace, named).value)
    ensures s.issued <= Exec(s, trace, named).value.issued
    decreases |trace|
  {
    if trace == [] {
    } else {
      var r := Apply(s, trace[0].0, trace[0].1, named);
      IssuedGrows(r, trace[1..], named);
      FreshStep(s, trace[0].0, trace[0].1, named);
      FoundStep(s, trace[0].0, trace[0].1, named);
      FoundRun(r, trace[1..], named);
    }
  }

  lemma {:induction false} IssuedGrows(s: State, trace: seq<(Thread, Event)>, named: bool)
    requires Exec(s, trace, named).Some?
    ensures s.issued <= Exec(s, trace, named).value.issued
    decreases |trace|
  {
    if trace == [] {
    } else {
      IssuedGrows(Apply(s, trace[0].0, trace[0].1, named), trace[1..], named);
    }
  }

  /** Until the counter wraps, pending is exactly the Submit calls in flight under their numbers, so a
      response is offered to the call that asked for it. */
  lemma PendingIsExact(trace: seq<(Thread, Event)>, named: bool, s: State, q: Seq, t: Thread)
    requires Exec(INITIAL, trace, named) == Some(s) && s.issued < WRAP
    ensures Find(s.core, q) == Some(t) <==> InFlight(s, t) && s.calls[t].seqNo == q
  {
    InvRun(INITIAL, trace, named);
    FoundRun(INITIAL, trace, named);
    assert PendingOk(s, q);
  }

  // ------------------------------------------------------------- how a request ends

  /** The steps of `t` so far fit where it stands: whether its send failed, it was canceled, or it
      received decides what it returns. */
  predicate FitsPast(s: State, past: seq<(Thread, Event)>, t: Thread) {
    var failed := (t, Send(false)) in past || (t, Cancel) in past;
    var received := (t, Receive) in past;
    if t !in s.calls then !failed && !received
    else
      match s.calls[t]
      case Leaving(_, outcome) =>
        (failed <==> outcome.Failed?) && (received <==> outcome.Answered?) && !outcome.Detached?
      case Submitted(_, result) => (failed <==> result.Failed?) && (received <==> result.Answered?)
      case _ => !failed && !received
  }

  lemma PastStep(s: State, past: seq<(Thread, Event)>, u: Thread, e: Event, named: bool, t: Thread)
    requires FitsPast(s, past, t) && Enabled(s, u, e)
    ensures FitsPast(Apply(s, u, e, named), past + [(u, e)], t)
  {
    assert forall x: Event :: (t, x) in past + [(u, e)] <==> (t, x) in past || (u == t && x == e);
  }

  lemma {:induction false} PastRun(s: State, past: seq<(Thread, Event)>, trace: seq<(Thread, Event)>, named: bool,
                                   t: Thread)
    requires FitsPast(s, past, t) && Exec(s, trace, named).Some?
    ensures FitsPast(Exec(s, trace, named).value, past + trace, t)
    decreases |trace|
  {
    if trace == [] {
      assert past + trace == past;
    } else {
      PastStep(s, past, trace[0].0, trace[0].1, named, t);
      PastRun(Apply(s, trace[0].0, trace[0].1, named), past + [trace[0]], trace[1..], named, t);
      assert past + [trace[0]] + trace[1..] == past + trace;
    }
  }

  /** In every interleaving a Submit that returned failed if and only if its send failed or it was
      canceled, answers if and only if it received, and otherwise found the device detached. */
  lemma SubmitReturns(trace: seq<(Thread, Event)>, named: bool, s: State, t: Thread)
    requires Exec(INITIAL, trace, named) == Some(s) && t in s.calls && s.calls[t].Submitted?
    ensures s.calls[t].result.Failed? <==> (t, Send(false)) in trace || (t, Cancel) in trace
    ensures s.calls[t].result.Answered? <==> (t, Receive) in trace
  {
    PastRun(INITIAL, [], trace, named, t);
    assert [] + trace == trace;
  }

  /** A Submit that finds the device closed registers nothing and returns at once; otherwise it
      registers its channel under its number. */
  lemma EnrollDecides(s: State, t: Thread, named: bool)
    requires Enabled(s, t, Enroll)
    ensures var r, q := Apply(s, t, Enroll, named), s.calls[t].seqNo;
            if s.core.closed then r == s.(calls := s.calls[t := Submitted(q, Detached)])
            else
              && r.calls == s.calls[t := Registered(q)]
              && r.core == s.core.(pending := s.core.pending[q := t])
  {
  }

  /** What is in a response channel stays there until its Submit receives it, and is what it returns. */
  lemma ChannelKept(s: State, u: Thread, e: Event, named: bool, t: Thread)
    requires Enabled(s, u, e) && t in s.channels
    ensures var r := Apply(s, u, e, named);
            if u == t && e.Receive? then
              t !in r.channels && r.calls[t] == Leaving(s.calls[t].seqNo, Answered(s.channels[t]))
            else t in r.channels && r.channels[t] == s.channels[t]
  {
  }

  /** Until the counter wraps, a response delivered to a waiting Submit that has none yet reaches it: the
      two steps of deliver put it into the channel, and the Submit can receive exactly that. */
  lemma DeliveryArrives(trace: seq<(Thread, Event)>, named: bool, s: State, t: Thread, d: Thread, response: Response)
    requires Exec(INITIAL, trace, named) == Some(s) && s.issued < WRAP
    requires t in s.calls && s.calls[t] == Waiting(response.seqNo) && t !in s.channels && d !in s.calls
    ensures Enabled(s, d, Lookup(response))
    ensures var s1 := Apply(s, d, Lookup(response), named);
            Enabled(s1, d, Put) &&
            var s2 := Apply(s1, d, Put, named);
            && s2.channels == s.channels[t := response]
            && Enabled(s2, t, Receive)
            && Apply(s2, t, Receive, named).calls[t] == Leaving(response.seqNo, Answered(response))
  {
    PendingIsExact(trace, named, s, response.seqNo, t);
  }

  /** A response nobody waits for changes nothing but the end of its deliver call. */
  lemma StrayIsDropped(s: State, d: Thread, response: Response, named: bool)
    requires d !in s.calls && response.seqNo !in s.core.pending
    ensures Apply(s, d, Lookup(response), named) == s.(calls := s.calls[d := Delivered])
  {
  }
}
