/**
 What a client that replays the connection event stream can rely on, over every
 sequence of tracker events, ticks and evictions.  The client is the table kept
 by Connections.ApplyEvents.
 */
module ConnectionReplay {
  import opened Wrappers
  import opened ConnectionStream

  // ----------------------------------------------------------------- the client

  /** The table of Connections.ApplyEvents.  A connection is live while closedAt is zero. */
  type Client = map<Id, Connection>

  function Deliver(entry: Option<Connection>, e: Event): Option<Connection> {
    match e
    case New(_, c) => Some(c)
    case Update(_, du, dd) =>
      if entry.None? then None
      else Some(entry.value.(uplinkTotal := entry.value.uplinkTotal + du,
                             downlinkTotal := entry.value.downlinkTotal + dd))
    case Closed(_, at, final) =>
      if final.Some? then Some(final.value.(closedAt := at))
      else if entry.Some? then Some(entry.value.(closedAt := at))
      else None
  }

  function ApplyEvents(client: Client, events: seq<Event>): Client {
    if events == [] then client
    else
      var e := events[|events| - 1];
      var earlier := ApplyEvents(client, events[..|events| - 1]);
      var entry := Deliver(At(earlier, e.id), e);
      if entry.Some? then earlier[e.id := entry.value] else earlier
  }

  function LiveIds(client: Client): set<Id> {
    set id <- client | client[id].closedAt == 0
  }

  /** The events about one connection. */
  function Of(events: seq<Event>, id: Id): seq<Event> {
    if events == [] then []
    else
      var e := events[|events| - 1];
      Of(events[..|events| - 1], id) + if e.id == id then [e] else []
  }

  function DeliverAll(entry: Option<Connection>, events: seq<Event>): Option<Connection> {
    if events == [] then entry
    else Deliver(DeliverAll(entry, events[..|events| - 1]), events[|events| - 1])
  }

  lemma OfSnoc(events: seq<Event>, e: Option<Event>, id: Id)
    ensures Of(Snoc(events, e), id) == Snoc(Of(events, id), if e.Some? && e.value.id == id then e else None)
  {
    if e.Some? {
      assert (events + [e.value])[..|events|] == events;
    }
  }

  lemma {:induction false} OfAppend(a: seq<Event>, b: seq<Event>, id: Id)
    ensures Of(a + b, id) == Of(a, id) + Of(b, id)
  {
    if b == [] {
      assert a + b == a;
    } else {
      OfAppend(a, b[..|b| - 1], id);
      assert (a + b)[..|a + b| - 1] == a + b[..|b| - 1];
    }
  }

  /** The client's view of a connection depends only on the events about it. */
  lemma {:induction false} ReplayIsLocal(client: Client, events: seq<Event>, id: Id)
    ensures At(ApplyEvents(client, events), id) == DeliverAll(At(client, id), Of(events, id))
  {
    if events == [] {
    } else {
      var init := events[..|events| - 1];
      var e := events[|events| - 1];
      ReplayIsLocal(client, init, id);
      if e.id == id {
        assert (Of(init, id) + [e])[..|Of(init, id)|] == Of(init, id);
      } else {
        assert Of(events, id) == Of(init, id);
      }
    }
  }

  // ------------------------------------------------ what a tick does to one id

  lemma {:induction false} ActiveEventsOfOther(before: map<Id, Snapshot>, active: seq<Tracker>, id: Id)
    requires forall i :: 0 <= i < |active| ==> active[i].id != id
    ensures Of(ActiveEvents(before, active), id) == []
  {
    if active == [] {
    } else {
      var init, last := active[..|active| - 1], active[|active| - 1];
      ActiveEventsOfOther(before, init, id);
      OfSnoc(ActiveEvents(before, init), Touch(At(before, last.id), last).event, id);
    }
  }

  lemma {:induction false} ActiveEventsOf(before: map<Id, Snapshot>, active: seq<Tracker>, k: nat)
    requires Distinct(active) && k < |active|
    ensures Of(ActiveEvents(before, active), active[k].id) ==
            Snoc([], Touch(At(before, active[k].id), active[k]).event)
  {
    var init, last := active[..|active| - 1], active[|active| - 1];
    OfSnoc(ActiveEvents(before, init), Touch(At(before, last.id), last).event, active[k].id);
    if k == |init| {
      ActiveEventsOfOther(before, init, last.id);
    } else {
      ActiveEventsOf(before, init, k);
    }
  }

  lemma {:induction false} ClosesOf(events: seq<Event>, stale: set<Id>, closed: seq<Tracker>, clock: Id -> Instant,
                                    id: Id)
    requires Closes(events, stale, closed, clock)
    ensures Of(events, id) == if id in stale then [CloseEvent(id, closed, clock(id))] else []
  {
    if events == [] {
    } else {
      var init, e := events[..|events| - 1], events[|events| - 1];
      ClosesOf(init, stale - {e.id}, closed, clock, id);
    }
  }

  lemma TickSplits(before: map<Id, Snapshot>, active: seq<Tracker>, closed: seq<Tracker>,
                   clock: Id -> Instant, after: map<Id, Snapshot>, events: seq<Event>, id: Id)
    requires IsTick(before, active, closed, clock, after, events)
    ensures var tail := events[|ActiveEvents(before, active)|..];
            Of(events, id) == Of(ActiveEvents(before, active), id) + Of(tail, id)
  {
    var head := ActiveEvents(before, active);
    assert events == head + events[|head|..];
    OfAppend(head, events[|head|..], id);
  }

  /** A tick says about an active connection exactly what its touch says. */
  lemma TickOfActive(before: map<Id, Snapshot>, active: seq<Tracker>, closed: seq<Tracker>,
                     clock: Id -> Instant, after: map<Id, Snapshot>, events: seq<Event>, k: nat)
    requires Distinct(active) && IsTick(before, active, closed, clock, after, events) && k < |active|
    ensures Of(events, active[k].id) == Snoc([], Touch(At(before, active[k].id), active[k]).event)
    ensures At(after, active[k].id) == Some(Touch(At(before, active[k].id), active[k]).snapshot)
  {
    var id := active[k].id;
    assert active[k] in active && id in Ids(active);
    TickSplits(before, active, closed, clock, after, events, id);
    ClosesOf(events[|ActiveEvents(before, active)|..], before.Keys - Ids(active), closed, clock, id);
    ActiveEventsOf(before, active, k);
  }

  /** It closes a stale connection exactly once and is silent about any other. */
  lemma TickOfInactive(before: map<Id, Snapshot>, active: seq<Tracker>, closed: seq<Tracker>,
                       clock: Id -> Instant, after: map<Id, Snapshot>, events: seq<Event>, id: Id)
    requires Distinct(active) && IsTick(before, active, closed, clock, after, events) && id !in Ids(active)
    ensures Of(events, id) == if id in before then [CloseEvent(id, closed, clock(id))] else []
  {
    TickSplits(before, active, closed, clock, after, events, id);
    ClosesOf(events[|ActiveEvents(before, active)|..], before.Keys - Ids(active), closed, clock, id);
    assert forall i :: 0 <= i < |active| ==> active[i] in active;
    ActiveEventsOfOther(before, active, id);
  }

  // ------------------------------------------------------------------ the runs

  /** `history` is everything sent so far, `latest` the batch sent last. */
  datatype Session = Session(snapshots: map<Id, Snapshot>, client: Client, history: seq<Event>, latest: seq<Event>)

  /** The client forgets closed connections after a while. */
  datatype Turn =
    | Tracked(event: TrackerEvent, now: Instant)
    | Ticked(active: seq<Tracker>, closed: seq<Tracker>, clock: Id -> Instant)
    | Evicted(gone: set<Id>)

  ghost predicate Start(s: Session, active: seq<Tracker>, closed: seq<Tracker>) {
    && Distinct(active)
    && s.snapshots.Keys == Ids(active)
    && (forall t <- active :: s.snapshots[t.id] == Snapshot(t.up, t.down, false))
    && s.history == InitialEvents(active, closed)
    && s.client == ApplyEvents(map[], s.history)
  }

  ghost predicate Next(s: Session, turn: Turn, s': Session) {
    && s'.history == s.history + s'.latest
    && match turn
       case Tracked(event, now) =>
         && s'.latest == Snoc([], TrackedEvent(s.snapshots, event, now))
         && s'.snapshots == AfterTracked(s.snapshots, event)
         && s'.client == ApplyEvents(s.client, s'.latest)
       case Ticked(active, closed, clock) =>
         && Distinct(active)
         && IsTick(s.snapshots, active, closed, clock, s'.snapshots, s'.latest)
         && s'.client == ApplyEvents(s.client, s'.latest)
       case Evicted(gone) =>
         && gone !! LiveIds(s.client)
         && s' == s.(client := s.client - gone, latest := [])
  }

  ghost predicate IsRun(states: seq<Session>, turns: seq<Turn>) {
    && |states| == |turns| + 1
    && forall i :: 0 <= i < |turns| ==> Next(states[i], turns[i], states[i + 1])
  }

  predicate Open(entry: Option<Connection>) {
    entry.Some? && entry.value.closedAt == 0
  }

  // ------------------------------------------------- one connection at a time

  /** The two tables' entries for one connection. */
  datatype Row = Row(snapshot: Option<Snapshot>, entry: Option<Connection>)

  function RowOf(s: Session, id: Id): Row {
    Row(At(s.snapshots, id), At(s.client, id))
  }

  /** What a turn is about, from the point of view of one connection. */
  datatype Cause =
    | Seen(t: Tracker)      // a tick finds it active
    | Missed                // a tick does not find it
    | Came(t: Tracker)
    | Went
    | Bystander
    | Forgotten             // the client evicts it

  function Told(entry: Option<Connection>, said: Option<Event>): Option<Connection> {
    if said.Some? then Deliver(entry, said.value) else entry
  }

  ghost predicate RowNext(row: Row, cause: Cause, said: Option<Event>, row': Row) {
    && (if cause.Forgotten? then !Open(row.entry) && row'.entry.None? else row'.entry == Told(row.entry, said))
    && match cause
       case Seen(t) =>
         said == Touch(row.snapshot, t).event && row'.snapshot == Some(Touch(row.snapshot, t).snapshot)
       case Missed =>
         row'.snapshot.None? && (row.snapshot.Some? <==> said.Some?) && (said.Some? ==> said.value.Closed?)
       case Came(t) =>
         if row.snapshot.Some? then said.None? && row'.snapshot == row.snapshot
         else
           && row'.snapshot == Some(Snapshot(t.up, t.down, false))
           && said.Some? && said.value.New? && said.value.connection == Show(t)
       case Went => row'.snapshot.None? && said.Some? && said.value.Closed?
       case Bystander => said.None? && row'.snapshot == row.snapshot
       case Forgotten => said.None? && row'.snapshot == row.snapshot
  }

  /** How the cause relates to the turn it is seen in. */
  ghost predicate CauseFits(cause: Cause, turn: Turn, id: Id) {
    && (cause.Seen? ==> turn.Ticked? && cause.t in turn.active && cause.t.id == id)
    && (cause.Missed? ==> turn.Ticked? && id !in Ids(turn.active))
    && (cause.Came? ==> turn.Tracked? && turn.event.Joined? && cause.t == turn.event.tracker)
    && (turn.Ticked? ==> cause.Seen? || cause.Missed?)
    && (turn.Tracked? && turn.event.Joined? && turn.event.id == id ==> cause.Came?)
  }

  lemma DeliverSnoc(entry: Option<Connection>, said: Option<Event>)
    ensures DeliverAll(entry, Snoc([], said)) == Told(entry, said)
  {
    if said.Some? {
      assert [said.value][..0] == [];
    }
  }

  lemma ReplaySaid(client: Client, events: seq<Event>, id: Id, said: Option<Event>)
    requires Of(events, id) == Snoc([], said)
    ensures At(ApplyEvents(client, events), id) == Told(At(client, id), said)
  {
    ReplayIsLocal(client, events, id);
    DeliverSnoc(At(client, id), said);
  }

  lemma TickRow(before: map<Id, Snapshot>, active: seq<Tracker>, closed: seq<Tracker>,
                clock: Id -> Instant, after: map<Id, Snapshot>, events: seq<Event>, entry: Option<Connection>, id: Id)
    returns (cause: Cause, said: Option<Event>)
    requires Distinct(active) && IsTick(before, active, closed, clock, after, events)
    ensures RowNext(Row(At(before, id), entry), cause, said, Row(At(after, id), Told(entry, said)))
    ensures Of(events, id) == Snoc([], said)
    ensures CauseFits(cause, Ticked(active, closed, clock), id)
  {
    if k :| 0 <= k < |active| && active[k].id == id {
      cause, said := Seen(active[k]), Touch(At(before, id), active[k]).event;
      TickOfActive(before, active, closed, clock, after, events, k);
    } else {
      cause := Missed;
      said := if id in before then Some(CloseEvent(id, closed, clock(id))) else None;
      TickOfInactive(before, active, closed, clock, after, events, id);
    }
  }

  lemma SaidOnce(client: Client, e: Option<Event>, id: Id)
    ensures var said := if e.Some? && e.value.id == id then e else None;
            && At(ApplyEvents(client, Snoc([], e)), id) == Told(At(client, id), said)
            && Of(Snoc([], e), id) == Snoc([], said)
  {
    ReplayIsLocal(client, Snoc([], e), id);
    OfSnoc([], e, id);
    DeliverSnoc(At(client, id), if e.Some? && e.value.id == id then e else None);
  }

  lemma TrackedRow(before: map<Id, Snapshot>, event: TrackerEvent, now: Instant, client: Client, id: Id)
    returns (cause: Cause, said: Option<Event>)
    ensures var e := TrackedEvent(before, event, now);
            && RowNext(Row(At(before, id), At(client, id)), cause, said,
                       Row(At(AfterTracked(before, event), id), At(ApplyEvents(client, Snoc([], e)), id)))
            && Of(Snoc([], e), id) == Snoc([], said)
    ensures CauseFits(cause, Tracked(event, now), id)
  {
    var e := TrackedEvent(before, event, now);
    SaidOnce(client, e, id);
    said := if id == event.id then e else None;
    cause := if id != event.id then Bystander else if event.Joined? then Came(event.tracker) else Went;
  }

  lemma RowStep(s: Session, turn: Turn, s': Session, id: Id) returns (cause: Cause, said: Option<Event>)
    requires Next(s, turn, s')
    ensures RowNext(RowOf(s, id), cause, said, RowOf(s', id))
    ensures Of(s'.latest, id) == Snoc([], said)
    ensures CauseFits(cause, turn, id)
  {
    match turn
    case Tracked(event, now) => cause, said := TrackedRow(s.snapshots, event, now, s.client, id);
    case Ticked(active, closed, clock) =>
      cause, said := TickRow(s.snapshots, active, closed, clock, s'.snapshots, s'.latest, At(s.client, id), id);
      ReplaySaid(s.client, s'.latest, id, said);
    case Evicted(gone) =>
      cause, said := if id in gone then Forgotten else Bystander, None;
      if id in gone && id in s.client { assert id !in LiveIds(s.client); }
  }

  // ---------------------------------------------------- live set and snapshots

  /** In a row the client and the snapshots agree on whether the connection is live. */
  predicate Agrees(row: Row) { Open(row.entry) <==> row.snapshot.Some? }

  lemma AgreesStep(row: Row, cause: Cause, said: Option<Event>, row': Row)
    requires RowNext(row, cause, said, row') && Agrees(row)
    ensures Agrees(row')
  {
  }

  ghost predicate LastAbout(events: seq<Event>, k: int, id: Id) {
    0 <= k < |events| && events[k].id == id && forall j :: k < j < |events| ==> events[j].id != id
  }

  /** The last event about a connection decides if it is an announcement. */
  lemma {:induction false} ReplayLast(client: Client, events: seq<Event>, k: nat, id: Id)
    requires LastAbout(events, k, id) && events[k].New?
    ensures At(ApplyEvents(client, events), id) == Some(events[k].connection)
  {
    if k < |events| - 1 {
      ReplayLast(client, events[..|events| - 1], k, id);
    }
  }

  lemma {:induction false} ReplayOthers(client: Client, events: seq<Event>, id: Id)
    requires forall k :: 0 <= k < |events| ==> events[k].id != id
    ensures At(ApplyEvents(client, events), id) == At(client, id)
  {
    if events == [] {
    } else {
      ReplayOthers(client, events[..|events| - 1], id);
    }
  }

  lemma FindLast(events: seq<Event>, j: nat, id: Id) returns (k: nat)
    requires j < |events| && events[j].id == id
    ensures LastAbout(events, k, id) && k >= j
  {
    k := |events| - 1;
    while events[k].id != id
      invariant j <= k < |events|
      invariant forall i :: k < i < |events| ==> events[i].id != id
      decreases k
    {
      k := k - 1;
    }
  }

  /** A connection on both initial lists is announced open and then closed. */
  lemma InitialRow(s: Session, active: seq<Tracker>, closed: seq<Tracker>, id: Id)
    requires Start(s, active, closed)
    ensures Open(At(s.client, id)) <==> id in Ids(active) && id !in Ids(closed)
    ensures id !in Ids(closed) ==> forall t <- active :: t.id == id ==> At(s.client, id) == Some(Show(t))
  {
    var events := s.history;
    if j :| 0 <= j < |closed| && closed[j].id == id {
      assert closed[j] in closed;
      var k := FindLast(events, |active| + j, id);
      ReplayLast(map[], events, k, id);
    } else if j :| 0 <= j < |active| && active[j].id == id {
      assert active[j] in active;
      var k := FindLast(events, j, id);
      ReplayLast(map[], events, k, id);
    } else {
      ReplayOthers(map[], events, id);
    }
  }

  /** The subscription starts in agreement with its client if and only if no connection
      moved from the active to the closed list between the two reads. */
  lemma InitialLiveIff(s: Session, active: seq<Tracker>, closed: seq<Tracker>)
    requires Start(s, active, closed)
    ensures LiveIds(s.client) == s.snapshots.Keys <==> Ids(active) !! Ids(closed)
  {
    forall id ensures id in LiveIds(s.client) <==> id in Ids(active) && id !in Ids(closed) {
      InitialRow(s, active, closed, id);
    }
    assert LiveIds(s.client) == Ids(active) - Ids(closed);
  }

  const MOVING := Tracker(1, 0, 0, 0, 0, Some(1))

  /** A connection that closes between the two reads is on both lists, and the client shows it closed
      while the subscription goes on following it. */
  lemma InitialListsMayOverlap() returns (s: Session)
    ensures Start(s, [MOVING], [MOVING]) && LiveIds(s.client) != s.snapshots.Keys
  {
    var events := InitialEvents([MOVING], [MOVING]);
    s := Session(map[1 := Snapshot(0, 0, false)], ApplyEvents(map[], events), events, events);
    assert MOVING in [MOVING] && Ids([MOVING]) == {1};
    InitialLiveIff(s, [MOVING], [MOVING]);
  }

  lemma LiveIffAgrees(s: Session)
    ensures LiveIds(s.client) == s.snapshots.Keys <==> forall id :: Agrees(RowOf(s, id))
  {
    forall id ensures Agrees(RowOf(s, id)) <==> (id in LiveIds(s.client) <==> id in s.snapshots.Keys) {}
    if forall id :: Agrees(RowOf(s, id)) {
      forall id ensures id in LiveIds(s.client) <==> id in s.snapshots.Keys {
        assert Agrees(RowOf(s, id));
      }
    }
  }

  lemma LiveStep(s: Session, turn: Turn, s': Session)
    requires Next(s, turn, s') && LiveIds(s.client) == s.snapshots.Keys
    ensures LiveIds(s'.client) == s'.snapshots.Keys
  {
    LiveIffAgrees(s);
    forall id ensures Agrees(RowOf(s', id)) {
      var cause, said := RowStep(s, turn, s', id);
      AgreesStep(RowOf(s, id), cause, said, RowOf(s', id));
    }
    LiveIffAgrees(s');
  }

  /** At every point of every run the connections the client shows as live are exactly
      those with a snapshot, provided the two initial lists were disjoint. */
  lemma {:induction false} ClientLiveSet(states: seq<Session>, turns: seq<Turn>,
                                         active: seq<Tracker>, closed: seq<Tracker>, n: nat)
    requires IsRun(states, turns) && Start(states[0], active, closed) && n < |states|
    requires Ids(active) !! Ids(closed)
    ensures LiveIds(states[n].client) == states[n].snapshots.Keys
  {
    if n == 0 {
      InitialLiveIff(states[0], active, closed);
    } else {
      ClientLiveSet(states, turns, active, closed, n - 1);
      LiveStep(states[n - 1], turns[n - 1], states[n]);
    }
  }

  /** A tick repairs every disagreement except about a connection it finds active and
      already knows, or neither finds nor knows. */
  lemma TickResyncIff(s: Session, turn: Turn, s': Session, id: Id)
    requires Next(s, turn, s') && turn.Ticked?
    ensures Agrees(RowOf(s', id)) <==>
            ((id in Ids(turn.active) <==> id in s.snapshots) ==> Agrees(RowOf(s, id)))
  {
    var cause, said := RowStep(s, turn, s', id);
    if cause.Seen? {
      assert id in Ids(turn.active);
    }
  }

  /** After every tick of every run the client shows exactly the active connections as live, and the
      snapshots hold their current counters. */
  lemma ClientAfterTick(states: seq<Session>, turns: seq<Turn>, active: seq<Tracker>, closed: seq<Tracker>, n: nat)
    requires IsRun(states, turns) && Start(states[0], active, closed) && Ids(active) !! Ids(closed)
    requires n < |turns| && turns[n].Ticked?
    ensures LiveIds(states[n + 1].client) == Ids(turns[n].active) == states[n + 1].snapshots.Keys
    ensures forall t <- turns[n].active ::
              states[n + 1].snapshots[t.id].uplink == t.up && states[n + 1].snapshots[t.id].downlink == t.down
  {
    ClientLiveSet(states, turns, active, closed, n + 1);
    assert Next(states[n], turns[n], states[n + 1]);
  }

  // -------------------------------------------------------------------- deltas

  predicate Positive(e: Event) { e.Update? && (e.uplinkDelta > 0 || e.downlinkDelta > 0) }

  predicate Silent(e: Event) { e.Update? && e.uplinkDelta == 0 && e.downlinkDelta == 0 }

  predicate NonNegative(e: Event) { e.Update? ==> e.uplinkDelta >= 0 && e.downlinkDelta >= 0 }

  /** The counters of `id` do not go back in this turn. */
  ghost predicate Forward(s: Session, turn: Turn, id: Id) {
    turn.Ticked? && id in s.snapshots ==>
      forall t <- turn.active :: t.id == id ==>
        t.up >= s.snapshots[id].uplink && t.down >= s.snapshots[id].downlink
  }

  function UpSum(events: seq<Event>): int {
    if events == [] then 0
    else
      var e := events[|events| - 1];
      UpSum(events[..|events| - 1]) + if e.Update? then e.uplinkDelta else 0
  }

  function DownSum(events: seq<Event>): int {
    if events == [] then 0
    else
      var e := events[|events| - 1];
      DownSum(events[..|events| - 1]) + if e.Update? then e.downlinkDelta else 0
  }

  function UpDelta(said: Option<Event>): int {
    if said.Some? && said.value.Update? then said.value.uplinkDelta else 0
  }

  function DownDelta(said: Option<Event>): int {
    if said.Some? && said.value.Update? then said.value.downlinkDelta else 0
  }

  lemma SumSnoc(events: seq<Event>, said: Option<Event>)
    ensures UpSum(events + Snoc([], said)) == UpSum(events) + UpDelta(said)
    ensures DownSum(events + Snoc([], said)) == DownSum(events) + DownDelta(said)
  {
    if said.Some? {
      assert (events + [said.value])[..|events|] == events;
    } else {
      assert events + [] == events;
    }
  }

  /** `id` has a snapshot in every state, and its counters only go forward. */
  ghost predicate StaysForward(states: seq<Session>, turns: seq<Turn>, id: Id)
    requires IsRun(states, turns)
  {
    && (forall i :: 0 <= i < |states| ==> id in states[i].snapshots)
    && (forall i :: 0 <= i < |turns| ==> Forward(states[i], turns[i], id))
  }

  lemma DeltaRow(row: Row, cause: Cause, said: Option<Event>, row': Row)
    requires RowNext(row, cause, said, row') && row.snapshot.Some? && row'.snapshot.Some?
    requires cause.Seen? ==> cause.t.up >= row.snapshot.value.uplink && cause.t.down >= row.snapshot.value.downlink
    ensures UpDelta(said) == row'.snapshot.value.uplink - row.snapshot.value.uplink
    ensures DownDelta(said) == row'.snapshot.value.downlink - row.snapshot.value.downlink
  {
  }

  lemma DeltaStep(s: Session, turn: Turn, s': Session, id: Id) returns (said: Option<Event>)
    requires Next(s, turn, s') && id in s.snapshots && id in s'.snapshots && Forward(s, turn, id)
    ensures Of(s'.latest, id) == Snoc([], said)
    ensures UpDelta(said) == s'.snapshots[id].uplink - s.snapshots[id].uplink
    ensures DownDelta(said) == s'.snapshots[id].downlink - s.snapshots[id].downlink
  {
    var cause;
    cause, said := RowStep(s, turn, s', id);
    DeltaRow(RowOf(s, id), cause, said, RowOf(s', id));
  }

  /** What was sent between two states of a run. */
  function Emitted(a: Session, b: Session): seq<Event>
    requires a.history <= b.history
  {
    b.history[|a.history|..]
  }

  lemma EmittedSplits(a: Session, b: Session, c: Session, id: Id)
    requires a.history <= b.history && c.history == b.history + c.latest
    ensures a.history <= c.history && Of(Emitted(a, c), id) == Of(Emitted(a, b), id) + Of(c.latest, id)
  {
    assert Emitted(a, c) == Emitted(a, b) + c.latest;
    OfAppend(Emitted(a, b), c.latest, id);
  }

  /** The deltas sent for `id` between two states add up to the change of its snapshot. */
  predicate AddsUp(a: Session, b: Session, id: Id) {
    && a.history <= b.history && id in a.snapshots && id in b.snapshots
    && var sent := Of(Emitted(a, b), id);
       && UpSum(sent) == b.snapshots[id].uplink - a.snapshots[id].uplink
       && DownSum(sent) == b.snapshots[id].downlink - a.snapshots[id].downlink
  }

  lemma AddsUpMore(a: Session, b: Session, c: Session, id: Id, said: Option<Event>)
    requires AddsUp(a, b, id) && c.history == b.history + c.latest && id in c.snapshots
    requires Of(c.latest, id) == Snoc([], said)
    requires UpDelta(said) == c.snapshots[id].uplink - b.snapshots[id].uplink
    requires DownDelta(said) == c.snapshots[id].downlink - b.snapshots[id].downlink
    ensures AddsUp(a, c, id)
  {
    EmittedSplits(a, b, c, id);
    SumSnoc(Of(Emitted(a, b), id), said);
  }

  lemma AddsUpStep(a: Session, b: Session, turn: Turn, c: Session, id: Id)
    requires AddsUp(a, b, id) && Next(b, turn, c) && id in c.snapshots && Forward(b, turn, id)
    ensures AddsUp(a, c, id)
  {
    var said := DeltaStep(b, turn, c, id);
    AddsUpMore(a, b, c, id, said);
  }

  /** Over any stretch of a run in which a connection stays known and its counters do not
      go back, the deltas sent for it add up to the change of its snapshot. */
  lemma {:induction false} DeltasAddUp(states: seq<Session>, turns: seq<Turn>, id: Id, n: nat)
    requires IsRun(states, turns) && StaysForward(states, turns, id) && n < |states|
    ensures AddsUp(states[0], states[n], id)
  {
    if n == 0 {
      assert Emitted(states[0], states[0]) == [];
    } else {
      DeltasAddUp(states, turns, id, n - 1);
      AddsUpStep(states[0], states[n - 1], turns[n - 1], states[n], id);
    }
  }

  lemma {:induction false} OfContains(events: seq<Event>, k: nat)
    requires k < |events|
    ensures events[k] in Of(events, events[k].id)
  {
    if k < |events| - 1 {
      OfContains(events[..|events| - 1], k);
    }
  }

  lemma SaidIsOnly(events: seq<Event>, k: nat, said: Option<Event>)
    requires k < |events| && Of(events, events[k].id) == Snoc([], said)
    ensures said == Some(events[k]) && |Of(events, events[k].id)| <= 1
  {
    OfContains(events, k);
    assert events[k] in Snoc([], said);
  }

  lemma SaidInBatch(s: Session, turn: Turn, s': Session, k: nat) returns (cause: Cause)
    requires Next(s, turn, s') && k < |s'.latest|
    ensures var e := s'.latest[k];
            && RowNext(RowOf(s, e.id), cause, Some(e), RowOf(s', e.id))
            && |Of(s'.latest, e.id)| <= 1
  {
    var said;
    cause, said := RowStep(s, turn, s', s'.latest[k].id);
    SaidIsOnly(s'.latest, k, said);
  }

  lemma NonNegativeRow(row: Row, cause: Cause, e: Event, row': Row)
    requires RowNext(row, cause, Some(e), row')
    ensures NonNegative(e)
  {
  }

  lemma NonNegativeStep(s: Session, turn: Turn, s': Session, k: nat)
    requires Next(s, turn, s') && k < |s'.latest|
    ensures NonNegative(s'.latest[k])
  {
    var e := s'.latest[k];
    var cause := SaidInBatch(s, turn, s', k);
    NonNegativeRow(RowOf(s, e.id), cause, e, RowOf(s', e.id));
  }

  /** Every delta ever sent is non-negative, whatever the counters do. */
  lemma {:induction false} DeltasNonNegative(states: seq<Session>, turns: seq<Turn>,
                                             active: seq<Tracker>, closed: seq<Tracker>, n: nat, j: nat)
    requires IsRun(states, turns) && Start(states[0], active, closed)
    requires n < |states| && j < |states[n].history|
    ensures NonNegative(states[n].history[j])
  {
    if n == 0 {
    } else {
      var s, s' := states[n - 1], states[n];
      assert Next(s, turns[n - 1], s');
      if j < |s.history| {
        DeltasNonNegative(states, turns, active, closed, n - 1, j);
      } else {
        NonNegativeStep(s, turns[n - 1], s', j - |s.history|);
      }
    }
  }

  // ------------------------------------------------------------ silence updates

  predicate EndsPositive(about: seq<Event>) {
    about != [] && Positive(about[|about| - 1])
  }

  /** The latest event about `id` reports traffic. */
  predicate LatestPositive(history: seq<Event>, id: Id) {
    EndsPositive(Of(history, id))
  }

  ghost predicate TrafficRemembered(s: Session) {
    forall id <- s.snapshots :: s.snapshots[id].hadTraffic <==> LatestPositive(s.history, id)
  }

  lemma EndsSnoc(about: seq<Event>, said: Option<Event>)
    ensures EndsPositive(about + Snoc([], said)) <==> if said.Some? then Positive(said.value) else EndsPositive(about)
  {
    if said.None? {
      assert about + [] == about;
    }
  }

  lemma TrafficRow(row: Row, cause: Cause, said: Option<Event>, row': Row, before: bool)
    requires RowNext(row, cause, said, row') && (row.snapshot.Some? ==> (row.snapshot.value.hadTraffic <==> before))
    ensures row'.snapshot.Some? ==>
              (row'.snapshot.value.hadTraffic <==> if said.Some? then Positive(said.value) else before)
    ensures said.Some? && Silent(said.value) ==> row.snapshot.Some? && row.snapshot.value.hadTraffic
  {
  }

  lemma {:induction false} NoPositiveNews(events: seq<Event>, id: Id)
    requires forall k :: 0 <= k < |events| ==> events[k].New?
    ensures !LatestPositive(events, id)
  {
    if events == [] {
    } else {
      NoPositiveNews(events[..|events| - 1], id);
    }
  }

  lemma TrafficStep(s: Session, turn: Turn, s': Session, id: Id)
    requires Next(s, turn, s') && TrafficRemembered(s) && id in s'.snapshots
    ensures s'.snapshots[id].hadTraffic <==> LatestPositive(s'.history, id)
  {
    var cause, said := RowStep(s, turn, s', id);
    TrafficRow(RowOf(s, id), cause, said, RowOf(s', id), LatestPositive(s.history, id));
    OfAppend(s.history, s'.latest, id);
    EndsSnoc(Of(s.history, id), said);
  }

  lemma {:induction false} TrafficRun(states: seq<Session>, turns: seq<Turn>,
                                      active: seq<Tracker>, closed: seq<Tracker>, n: nat)
    requires IsRun(states, turns) && Start(states[0], active, closed) && n < |states|
    ensures TrafficRemembered(states[n])
  {
    if n == 0 {
      forall id <- states[0].snapshots
        ensures !states[0].snapshots[id].hadTraffic && !LatestPositive(states[0].history, id)
      {
        NoPositiveNews(states[0].history, id);
      }
    } else {
      TrafficRun(states, turns, active, closed, n - 1);
      assert Next(states[n - 1], turns[n - 1], states[n]);
      forall id <- states[n].snapshots
        ensures states[n].snapshots[id].hadTraffic <==> LatestPositive(states[n].history, id)
      {
        TrafficStep(states[n - 1], turns[n - 1], states[n], id);
      }
    }
  }

  lemma PrefixSilent(events: seq<Event>, k: nat)
    requires k < |events| && |Of(events, events[k].id)| <= 1
    ensures Of(events[..k], events[k].id) == []
  {
    var id := events[k].id;
    assert events == events[..k] + events[k..];
    OfAppend(events[..k], events[k..], id);
    OfContains(events[k..], 0);
  }

  /** The events about a connection before its event in the latest batch. */
  lemma AboutBefore(history: seq<Event>, latest: seq<Event>, k: nat)
    requires k < |latest| && |Of(latest, latest[k].id)| <= 1
    ensures Of(history + latest[..k], latest[k].id) == Of(history, latest[k].id)
  {
    PrefixSilent(latest, k);
    OfAppend(history, latest[..k], latest[k].id);
  }

  lemma SilentStep(s: Session, turn: Turn, s': Session, k: nat)
    requires Next(s, turn, s') && TrafficRemembered(s) && k < |s'.latest| && Silent(s'.latest[k])
    ensures LatestPositive(s.history + s'.latest[..k], s'.latest[k].id)
  {
    var e := s'.latest[k];
    var cause := SaidInBatch(s, turn, s', k);
    TrafficRow(RowOf(s, e.id), cause, Some(e), RowOf(s', e.id), LatestPositive(s.history, e.id));
    AboutBefore(s.history, s'.latest, k);
  }

  /** Every UPDATE of zero directly follows an UPDATE with traffic among the events about its connection. */
  predicate SilencesFollow(history: seq<Event>) {
    if history == [] then true
    else
      var init, last := history[..|history| - 1], history[|history| - 1];
      (Silent(last) ==> LatestPositive(init, last.id)) && SilencesFollow(init)
  }

  lemma {:induction false} SilenceAt(history: seq<Event>, j: nat)
    requires SilencesFollow(history) && j < |history| && Silent(history[j])
    ensures LatestPositive(history[..j], history[j].id)
  {
    if j < |history| - 1 {
      SilenceAt(history[..|history| - 1], j);
      assert history[..|history| - 1][..j] == history[..j];
    }
  }

  lemma {:induction false} NoSilentNews(events: seq<Event>)
    requires forall k :: 0 <= k < |events| ==> events[k].New?
    ensures SilencesFollow(events)
  {
    if events == [] {
    } else {
      NoSilentNews(events[..|events| - 1]);
    }
  }

  lemma SilencesStart(s: Session, active: seq<Tracker>, closed: seq<Tracker>)
    requires Start(s, active, closed)
    ensures SilencesFollow(s.history)
  {
    NoSilentNews(s.history);
  }

  lemma {:induction false} SilencesAppend(history: seq<Event>, latest: seq<Event>, n: nat)
    requires SilencesFollow(history) && n <= |latest|
    requires forall k :: 0 <= k < |latest| && Silent(latest[k]) ==> LatestPositive(history + latest[..k], latest[k].id)
    ensures SilencesFollow(history + latest[..n])
  {
    if n == 0 {
      assert history + latest[..0] == history;
    } else {
      SilencesAppend(history, latest, n - 1);
      assert (history + latest[..n])[..|history| + n - 1] == history + latest[..n - 1];
    }
  }

  lemma SilencesStep(s: Session, turn: Turn, s': Session)
    requires Next(s, turn, s') && TrafficRemembered(s) && SilencesFollow(s.history)
    ensures SilencesFollow(s'.history)
  {
    forall k | 0 <= k < |s'.latest| && Silent(s'.latest[k])
      ensures LatestPositive(s.history + s'.latest[..k], s'.latest[k].id)
    {
      SilentStep(s, turn, s', k);
    }
    SilencesAppend(s.history, s'.latest, |s'.latest|);
    assert s'.latest[..|s'.latest|] == s'.latest;
  }

  lemma {:induction false} SilencesRun(states: seq<Session>, turns: seq<Turn>,
                                       active: seq<Tracker>, closed: seq<Tracker>, n: nat)
    requires IsRun(states, turns) && Start(states[0], active, closed) && n < |states|
    ensures SilencesFollow(states[n].history)
  {
    if n == 0 {
      SilencesStart(states[0], active, closed);
    } else {
      SilencesRun(states, turns, active, closed, n - 1);
      TrafficRun(states, turns, active, closed, n - 1);
      SilencesStep(states[n - 1], turns[n - 1], states[n]);
    }
  }

  /** In everything a subscription sends, an UPDATE of zero directly follows one with traffic among
      the events about its connection; so between two of them there is always one with traffic. */
  lemma SilenceFollowsTraffic(states: seq<Session>, turns: seq<Turn>,
                              active: seq<Tracker>, closed: seq<Tracker>, n: nat, j: nat)
    requires IsRun(states, turns) && Start(states[0], active, closed)
    requires n < |states| && j < |states[n].history| && Silent(states[n].history[j])
    ensures LatestPositive(states[n].history[..j], states[n].history[j].id)
  {
    SilencesRun(states, turns, active, closed, n);
    SilenceAt(states[n].history, j);
  }

  /** The counters of a known connection went up, and neither went back. */
  predicate Grows(before: Snapshot, t: Tracker) {
    && t.up >= before.uplink && t.down >= before.downlink
    && (t.up > before.uplink || t.down > before.downlink)
  }

  /** What a tick has to say about an active connection, from what was said about it before. */
  function Due(before: Option<Snapshot>, latestPositive: bool, t: Tracker): seq<Event> {
    if before.None? then [New(t.id, Connection(t.shownUp, t.shownDown, 0))]
    else if Grows(before.value, t) then [Update(t.id, t.up - before.value.uplink, t.down - before.value.downlink)]
    else if latestPositive then [Update(t.id, 0, 0)]
    else []
  }

  lemma TouchIsDue(before: Option<Snapshot>, latestPositive: bool, t: Tracker)
    requires before.Some? ==> (before.value.hadTraffic <==> latestPositive)
    ensures Snoc([], Touch(before, t).event) == Due(before, latestPositive, t)
  {
  }

  lemma TickSaysStep(s: Session, turn: Turn, s': Session, t: Tracker, latestPositive: bool)
    requires Next(s, turn, s') && turn.Ticked? && t in turn.active
    requires t.id in s.snapshots ==> (s.snapshots[t.id].hadTraffic <==> latestPositive)
    ensures Of(s'.latest, t.id) == Due(At(s.snapshots, t.id), latestPositive, t)
  {
    var k :| 0 <= k < |turn.active| && turn.active[k] == t;
    TickOfActive(s.snapshots, turn.active, turn.closed, turn.clock, s'.snapshots, s'.latest, k);
    TouchIsDue(At(s.snapshots, t.id), latestPositive, t);
  }

  /** In every run a tick announces an unknown active connection, reports the growth of a known one,
      says once that its traffic stopped exactly when the last thing said about it was traffic, and is
      silent otherwise. */
  lemma TickSays(states: seq<Session>, turns: seq<Turn>, active: seq<Tracker>, closed: seq<Tracker>, n: nat, t: Tracker)
    requires IsRun(states, turns) && Start(states[0], active, closed)
    requires n < |turns| && turns[n].Ticked? && t in turns[n].active
    ensures Of(states[n + 1].latest, t.id) ==
            Due(At(states[n].snapshots, t.id), LatestPositive(states[n].history, t.id), t)
  {
    TrafficRun(states, turns, active, closed, n);
    TickSaysStep(states[n], turns[n], states[n + 1], t, LatestPositive(states[n].history, t.id));
  }

  // ------------------------------------------------------ what a closed connection shows

  /** A closing event shows the final counters and the event's closing time, else the tracker's, else
      the clock's; without a tracker only the time is added to what was shown. */
  lemma ClosedByEvent(s: Session, s': Session, id: Id, t: Tracker, at: Option<Instant>, now: Instant)
    requires Next(s, Tracked(Left(id, t, at), now), s')
    ensures var time := if at.Some? then at.value else if t.closedAt.Some? then t.closedAt.value else now;
            && id !in s'.snapshots
            && At(s'.client, id) ==
                 if t.id != NIL then Some(Connection(t.shownUp, t.shownDown, time))
                 else if id in s.client then Some(s.client[id].(closedAt := time))
                 else None
  {
    SaidOnce(s.client, TrackedEvent(s.snapshots, Left(id, t, at), now), id);
  }

  /** A tick that no longer finds a known connection shows what the closed list knows of it, with the
      list's closing time or else the clock's; if the list does not know it, only the time is added. */
  lemma ClosedByTick(s: Session, turn: Turn, s': Session, id: Id)
    requires Next(s, turn, s') && turn.Ticked? && id in s.snapshots && id !in Ids(turn.active)
    ensures id !in s'.snapshots
    ensures At(s'.client, id) ==
            match Latest(turn.closed, id)
            case Some(t) =>
              Some(Connection(t.shownUp, t.shownDown, if t.closedAt.Some? then t.closedAt.value else turn.clock(id)))
            case None =>
              if id in s.client then Some(s.client[id].(closedAt := turn.clock(id))) else None
  {
    TickOfInactive(s.snapshots, turn.active, turn.closed, turn.clock, s'.snapshots, s'.latest, id);
    ReplaySaid(s.client, s'.latest, id, Some(CloseEvent(id, turn.closed, turn.clock(id))));
  }

  /** At the start a connection of the closed list shows the counters and the time of its last entry. */
  lemma InitialClosed(s: Session, active: seq<Tracker>, closed: seq<Tracker>, id: Id)
    requires Start(s, active, closed) && id in Ids(closed)
    ensures Latest(closed, id).Some?
    ensures var t := Latest(closed, id).value;
            At(s.client, id) ==
              Some(Connection(t.shownUp, t.shownDown, if t.closedAt.Some? then t.closedAt.value else ZERO_TIME))
  {
    LatestIs(closed, id);
    var c :| c in closed && c.id == id;
    var i :| 0 <= i < |closed| && closed[i] == c;
    assert Latest(closed, id).Some?;
    var k :| && 0 <= k < |closed| && closed[k] == Latest(closed, id).value && closed[k].id == id
             && forall j :: k < j < |closed| ==> closed[j].id != id;
    LastOfInitial(active, closed, k, id);
    ReplayLast(map[], s.history, |active| + k, id);
  }

  lemma LastOfInitial(active: seq<Tracker>, closed: seq<Tracker>, k: nat, id: Id)
    requires k < |closed| && closed[k].id == id && forall j :: k < j < |closed| ==> closed[j].id != id
    ensures LastAbout(InitialEvents(active, closed), |active| + k, id)
    ensures InitialEvents(active, closed)[|active| + k] == New(id, ShowClosed(closed[k]))
  {
    var events := InitialEvents(active, closed);
    assert forall j :: |active| <= j < |events| ==> events[j].id == closed[j - |active|].id;
  }

  // ---------------------------------------------------- the totals on the screen

  /** The client's totals are off from the snapshot by the same amount before and after a
      tick if and only if no counter of the connection went back. */
  lemma TickKeepsTotalsIff(s: Session, turn: Turn, s': Session, id: Id)
    requires Next(s, turn, s') && turn.Ticked?
    requires id in s.snapshots && id in s'.snapshots && id in s.client && id in s'.client
    ensures Forward(s, turn, id) <==>
            && s'.client[id].uplinkTotal - s'.snapshots[id].uplink ==
                 s.client[id].uplinkTotal - s.snapshots[id].uplink
            && s'.client[id].downlinkTotal - s'.snapshots[id].downlink ==
                 s.client[id].downlinkTotal - s.snapshots[id].downlink
  {
    var cause, said := RowStep(s, turn, s', id);
    assert RowOf(s, id) == Row(Some(s.snapshots[id]), Some(s.client[id]));
    assert RowOf(s', id) == Row(Some(s'.snapshots[id]), Some(s'.client[id]));
    var t := cause.t;
    assert forall u <- turn.active :: u.id == id ==> u == t;
  }

  /** The two reads of the counters when the connection is announced gave the same values. */
  predicate ReadOnce(t: Tracker) { t.shownUp == t.up && t.shownDown == t.down }

  /** No traffic slips between two reads of the counters, and no counter goes back. */
  ghost predicate Quiet(s: Session, turn: Turn) {
    match turn
    case Tracked(event, _) => event.Joined? ==> ReadOnce(event.tracker)
    case Ticked(active, _, _) =>
      forall t <- active :: ReadOnce(t) &&
        (t.id in s.snapshots ==> t.up >= s.snapshots[t.id].uplink && t.down >= s.snapshots[t.id].downlink)
    case Evicted(_) => true
  }

  /** The client shows the connection as live with the totals of the snapshot. */
  predicate Mirrors(row: Row) {
    row.snapshot.Some? ==>
      && Open(row.entry)
      && row.entry.value.uplinkTotal == row.snapshot.value.uplink
      && row.entry.value.downlinkTotal == row.snapshot.value.downlink
  }

  /** The turn announces `id`: a tracker event or a tick tells of it for the first time. */
  ghost predicate Announces(s: Session, turn: Turn, id: Id, t: Tracker) {
    && id !in s.snapshots
    && match turn
       case Tracked(event, _) => event.Joined? && event.id == id && event.tracker == t
       case Ticked(active, _, _) => t in active && t.id == id
       case Evicted(_) => false
  }

  lemma AnnouncedRow(row: Row, cause: Cause, said: Option<Event>, row': Row)
    requires RowNext(row, cause, said, row') && row.snapshot.None? && (cause.Came? || cause.Seen?)
    ensures Mirrors(row') <==> ReadOnce(cause.t)
  {
  }

  /** A connection is announced with the totals of its snapshot if and only if both reads of the
      counters gave the same values. */
  lemma AnnouncedMirrorsIff(s: Session, turn: Turn, s': Session, id: Id, t: Tracker)
    requires Next(s, turn, s') && Announces(s, turn, id, t)
    ensures Mirrors(RowOf(s', id)) <==> ReadOnce(t)
  {
    var cause, said := RowStep(s, turn, s', id);
    if turn.Ticked? {
      assert t in turn.active && id in Ids(turn.active);
    }
    AnnouncedRow(RowOf(s, id), cause, said, RowOf(s', id));
  }

  lemma MirrorRow(row: Row, cause: Cause, said: Option<Event>, row': Row)
    requires RowNext(row, cause, said, row') && Mirrors(row)
    requires cause.Came? || cause.Seen? ==> ReadOnce(cause.t)
    requires cause.Seen? && row.snapshot.Some? ==>
               cause.t.up >= row.snapshot.value.uplink && cause.t.down >= row.snapshot.value.downlink
    ensures Mirrors(row')
  {
  }

  lemma MirrorStep(s: Session, turn: Turn, s': Session, id: Id)
    requires Next(s, turn, s') && Quiet(s, turn) && Mirrors(RowOf(s, id))
    ensures Mirrors(RowOf(s', id))
  {
    var cause, said := RowStep(s, turn, s', id);
    MirrorRow(RowOf(s, id), cause, said, RowOf(s', id));
  }

  /** In a quiet run the client's totals equal the snapshots, for every connection at every
      point; with ClientAfterTick they are the current counters after each tick. */
  lemma {:induction false} ClientTotals(states: seq<Session>, turns: seq<Turn>,
                                        active: seq<Tracker>, closed: seq<Tracker>, n: nat, id: Id)
    requires IsRun(states, turns) && Start(states[0], active, closed) && n < |states|
    requires Ids(active) !! Ids(closed) && (forall t <- active :: ReadOnce(t))
    requires forall i :: 0 <= i < |turns| ==> Quiet(states[i], turns[i])
    ensures Mirrors(RowOf(states[n], id))
  {
    if n == 0 {
      InitialRow(states[0], active, closed, id);
    } else {
      ClientTotals(states, turns, active, closed, n - 1, id);
      assert Next(states[n - 1], turns[n - 1], states[n]);
      MirrorStep(states[n - 1], turns[n - 1], states[n], id);
    }
  }
}
