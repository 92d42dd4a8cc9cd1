/**
 The connection event stream of the daemon.  A subscription keeps one snapshot
 per live connection and turns tracker events and ticks into NEW, UPDATE and
 CLOSED events; the client replays those events into its own table.

 The traffic manager is an input: the lists of active and closed connections,
 with the counter values read at the time.  A counter is read twice when a
 connection is announced, once for the snapshot (`up`, `down`) and once for
 the message (`shownUp`, `shownDown`).
 */
module ConnectionStream {
  import opened Wrappers

  type Id = nat

  const NIL: Id := 0

  /** A byte counter held in an int64.  Differences of two counters cannot overflow. */
  type Counter = x: int | 0 <= x < 0x8000_0000_0000_0000

  /** Milliseconds since the epoch.  Zero marks an open connection on the wire. */
  type Instant = x: int | x != 0 witness 1

  /** time.Time{}.UnixMilli() */
  const ZERO_TIME: Instant := -62135596800000

  datatype Tracker = Tracker(
    id: Id, up: Counter, down: Counter, shownUp: Counter, shownDown: Counter, closedAt: Option<Instant>)

  datatype TrackerEvent =
    | Joined(id: Id, tracker: Tracker)
    | Left(id: Id, tracker: Tracker, at: Option<Instant>)

  datatype Snapshot = Snapshot(uplink: Counter, downlink: Counter, hadTraffic: bool)

  datatype Connection = Connection(uplinkTotal: int, downlinkTotal: int, closedAt: int)

  datatype Event =
    | New(id: Id, connection: Connection)
    | Update(id: Id, uplinkDelta: int, downlinkDelta: int)
    | Closed(id: Id, at: Instant, final: Option<Connection>)

  predicate Distinct(trackers: seq<Tracker>) {
    forall i, j :: 0 <= i < j < |trackers| ==> trackers[i].id != trackers[j].id
  }

  function Ids(trackers: seq<Tracker>): set<Id> {
    set t <- trackers :: t.id
  }

  function Show(t: Tracker): Connection {
    Connection(t.shownUp, t.shownDown, 0)
  }

  function At<V>(m: map<Id, V>, id: Id): Option<V> {
    if id in m then Some(m[id]) else None
  }

  // ------------------------------------------------------------- specification

  datatype Touched = Touched(snapshot: Snapshot, event: Option<Event>)

  /** What a tick does for one active connection, given its snapshot. */
  function Touch(before: Option<Snapshot>, t: Tracker): (r: Touched)
    ensures r.snapshot.uplink == t.up && r.snapshot.downlink == t.down
    ensures r.event.Some? ==> r.event.value.id == t.id && !r.event.value.Closed?
  {
    match before
    case None => Touched(Snapshot(t.up, t.down, false), Some(New(t.id, Show(t))))
    case Some(s) =>
      var du, dd := t.up - s.uplink, t.down - s.downlink;
      var silence := if s.hadTraffic then Some(Update(t.id, 0, 0)) else None;
      if du < 0 || dd < 0 then Touched(Snapshot(t.up, t.down, false), silence)
      else if du > 0 || dd > 0 then Touched(Snapshot(t.up, t.down, true), Some(Update(t.id, du, dd)))
      else Touched(s.(hadTraffic := false), silence)
  }

  function Snoc(events: seq<Event>, e: Option<Event>): seq<Event> {
    if e.Some? then events + [e.value] else events
  }

  function ActiveEvents(snapshots: map<Id, Snapshot>, active: seq<Tracker>): seq<Event> {
    if active == [] then []
    else
      var last := active[|active| - 1];
      Snoc(ActiveEvents(snapshots, active[..|active| - 1]), Touch(At(snapshots, last.id), last).event)
  }

  /** The snapshots after the first loop of a tick. */
  function AfterActive(snapshots: map<Id, Snapshot>, active: seq<Tracker>): map<Id, Snapshot> {
    if active == [] then snapshots
    else
      var last := active[|active| - 1];
      AfterActive(snapshots, active[..|active| - 1])[last.id := Touch(At(snapshots, last.id), last).snapshot]
  }

  lemma {:induction false} AfterActiveOther(before: map<Id, Snapshot>, active: seq<Tracker>, id: Id)
    requires forall i :: 0 <= i < |active| ==> active[i].id != id
    ensures At(AfterActive(before, active), id) == At(before, id)
  {
    if active == [] {
    } else {
      AfterActiveOther(before, active[..|active| - 1], id);
    }
  }

  lemma {:induction false} AfterActiveKeys(before: map<Id, Snapshot>, active: seq<Tracker>)
    ensures AfterActive(before, active).Keys == before.Keys + Ids(active)
  {
    if active == [] {
    } else {
      AfterActiveKeys(before, active[..|active| - 1]);
      assert active == active[..|active| - 1] + [active[|active| - 1]];
    }
  }

  lemma {:induction false} AfterActiveAt(before: map<Id, Snapshot>, active: seq<Tracker>, k: nat)
    requires Distinct(active) && k < |active|
    ensures At(AfterActive(before, active), active[k].id) == Some(Touch(At(before, active[k].id), active[k]).snapshot)
  {
    if k < |active| - 1 {
      AfterActiveAt(before, active[..|active| - 1], k);
    }
  }

  /** The entry for a connection; a later one replaces an earlier one. */
  function Latest(trackers: seq<Tracker>, id: Id): Option<Tracker> {
    if trackers == [] then None
    else
      var last := trackers[|trackers| - 1];
      if last.id == id then Some(last) else Latest(trackers[..|trackers| - 1], id)
  }

  lemma {:induction false} LatestIs(trackers: seq<Tracker>, id: Id)
    ensures Latest(trackers, id).None? <==> forall i :: 0 <= i < |trackers| ==> trackers[i].id != id
    ensures Latest(trackers, id).Some? ==>
              exists i :: && 0 <= i < |trackers| && trackers[i] == Latest(trackers, id).value && trackers[i].id == id
                          && forall j :: i < j < |trackers| ==> trackers[j].id != id
  {
    if trackers == [] {
    } else {
      var init, last := trackers[..|trackers| - 1], trackers[|trackers| - 1];
      LatestIs(init, id);
      assert forall i :: 0 <= i < |init| ==> init[i] == trackers[i];
      if last.id == id {
        assert trackers[|trackers| - 1].id == id;
      } else if Latest(init, id).Some? {
        var i :| && 0 <= i < |init| && init[i] == Latest(init, id).value && init[i].id == id
                 && forall j :: i < j < |init| ==> init[j].id != id;
        assert trackers[i].id == id;
      }
    }
  }

  /** The CLOSED event of a stale connection tells what the closed list knows of it: the final
      counters, and the closing time unless the list has none and the clock has to do. */
  function CloseEvent(id: Id, closed: seq<Tracker>, now: Instant): Event {
    match Latest(closed, id)
    case None => Closed(id, now, None)
    case Some(t) =>
      var at := if t.closedAt.Some? then t.closedAt.value else now;
      Closed(id, at, Some(Show(t).(closedAt := at)))
  }

  /** One CLOSED event per stale connection, in any order; `clock` is the time read for each. */
  ghost predicate Closes(events: seq<Event>, stale: set<Id>, closed: seq<Tracker>, clock: Id -> Instant) {
    if events == [] then stale == {}
    else
      var e := events[|events| - 1];
      && e.id in stale && e == CloseEvent(e.id, closed, clock(e.id))
      && Closes(events[..|events| - 1], stale - {e.id}, closed, clock)
  }

  ghost predicate IsTick(before: map<Id, Snapshot>, active: seq<Tracker>, closed: seq<Tracker>, clock: Id -> Instant,
                         after: map<Id, Snapshot>, events: seq<Event>)
  {
    var head := ActiveEvents(before, active);
    && after.Keys == Ids(active)
    && (forall t <- active :: after[t.id] == Touch(At(before, t.id), t).snapshot)
    && |head| <= |events| && events[..|head|] == head
    && Closes(events[|head|..], before.Keys - Ids(active), closed, clock)
  }

  function InitialEvents(active: seq<Tracker>, closed: seq<Tracker>): seq<Event> {
    seq(|active|, i requires 0 <= i < |active| => New(active[i].id, Show(active[i]))) +
    seq(|closed|, i requires 0 <= i < |closed| => New(closed[i].id, ShowClosed(closed[i])))
  }

  function ShowClosed(t: Tracker): Connection {
    Show(t).(closedAt := if t.closedAt.Some? then t.closedAt.value else ZERO_TIME)
  }

  function AfterTracked(snapshots: map<Id, Snapshot>, event: TrackerEvent): map<Id, Snapshot> {
    match event
    case Joined(id, t) =>
      if id in snapshots then snapshots else snapshots[id := Snapshot(t.up, t.down, false)]
    case Left(id, _, _) => snapshots - {id}
  }

  function TrackedEvent(snapshots: map<Id, Snapshot>, event: TrackerEvent, now: Instant): Option<Event> {
    match event
    case Joined(id, t) => if id in snapshots then None else Some(New(id, Show(t)))
    case Left(id, t, at) =>
      var closedAt := if at.Some? then at.value else if t.closedAt.Some? then t.closedAt.value else now;
      Some(Closed(id, closedAt, if t.id != NIL then Some(Show(t).(closedAt := closedAt)) else None))
  }

  // ----------------------------------------------------------- the subscription

  /** The snapshot table of one SubscribeConnections call. */
  class Subscription {
    var snapshots: map<Id, Snapshot>

    constructor ()
      ensures snapshots == map[]
    {
      snapshots := map[];
    }

    method BuildInitialConnectionState(active: seq<Tracker>, closed: seq<Tracker>) returns (events: seq<Event>)
      requires snapshots == map[] && Distinct(active)
      modifies this
      ensures snapshots.Keys == Ids(active)
      ensures forall t <- active :: snapshots[t.id] == Snapshot(t.up, t.down, false)
      ensures events == InitialEvents(active, closed)
    {
      events := [];
      for i := 0 to |active|
        invariant |events| == i && forall k :: 0 <= k < i ==> events[k] == New(active[k].id, Show(active[k]))
        invariant snapshots.Keys == Ids(active[..i])
        invariant forall t <- active[..i] :: snapshots[t.id] == Snapshot(t.up, t.down, false)
      {
        var t := active[i];
        events := events + [New(t.id, Show(t))];
        snapshots := snapshots[t.id := Snapshot(t.up, t.down, false)];
        assert active[..i + 1] == active[..i] + [t];
      }
      assert active[..|active|] == active;
      for i := 0 to |closed|
        invariant |events| == |active| + i
        invariant events <= InitialEvents(active, closed)
      {
        events := events + [New(closed[i].id, ShowClosed(closed[i]))];
      }
    }

    method ApplyConnectionEvent(event: TrackerEvent, now: Instant) returns (emitted: Option<Event>)
      modifies this
      ensures snapshots == AfterTracked(old(snapshots), event)
      ensures emitted == TrackedEvent(old(snapshots), event, now)
    {
      match event
      case Joined(id, t) =>
        if id in snapshots {
          return None;
        }
        snapshots := snapshots[id := Snapshot(t.up, t.down, false)];
        return Some(New(id, Show(t)));
      case Left(id, t, at) =>
        snapshots := snapshots - {id};
        var closedAt := at;
        if closedAt.None? && t.closedAt.Some? {
          closedAt := t.closedAt;
        }
        if closedAt.None? {
          closedAt := Some(now);
        }
        var final: Option<Connection> := None;
        if t.id != NIL {
          final := Some(Show(t).(closedAt := closedAt.value));
        }
        return Some(Closed(id, closedAt.value, final));
    }

    method BuildTrafficUpdates(active: seq<Tracker>, closed: seq<Tracker>, clock: Id -> Instant)
      returns (events: seq<Event>)
      requires Distinct(active)
      modifies this
      ensures IsTick(old(snapshots), active, closed, clock, snapshots, events)
    {
      var updates := UpdateActive(active);
      AfterActiveKeys(old(snapshots), active);
      assert snapshots.Keys - Ids(active) == old(snapshots).Keys - Ids(active);
      forall k | 0 <= k < |active|
        ensures At(snapshots, active[k].id) == Some(Touch(At(old(snapshots), active[k].id), active[k]).snapshot)
      {
        AfterActiveAt(old(snapshots), active, k);
      }
      var closes := CloseInactive(Ids(active), closed, clock);
      events := updates + closes;
      assert events[..|updates|] == updates && events[|updates|..] == closes;
    }

    /** The second loop of buildTrafficUpdates: `activeIds` is the key set of activeIndex. */
    method CloseInactive(activeIds: set<Id>, closed: seq<Tracker>, clock: Id -> Instant) returns (events: seq<Event>)
      modifies this
      ensures snapshots.Keys == old(snapshots).Keys * activeIds
      ensures forall id <- snapshots :: snapshots[id] == old(snapshots)[id]
      ensures Closes(events, old(snapshots).Keys - activeIds, closed, clock)
    {
      events := [];
      var stale := snapshots.Keys - activeIds;
      ghost var done: set<Id> := {};
      while stale != {}
        invariant stale !! done && stale + done == old(snapshots).Keys - activeIds
        invariant snapshots == old(snapshots) - done
        invariant Closes(events, done, closed, clock)
      {
        var id :| id in stale;
        var event := CloseStale(id, closed, clock(id));
        assert (events + [event])[..|events|] == events && done + {id} - {id} == done;
        events := events + [event];
        snapshots := snapshots - {id};
        stale := stale - {id};
        done := done + {id};
      }
      assert done == old(snapshots).Keys - activeIds;
    }

    method UpdateActive(active: seq<Tracker>) returns (events: seq<Event>)
      requires Distinct(active)
      modifies this
      ensures snapshots == AfterActive(old(snapshots), active)
      ensures events == ActiveEvents(old(snapshots), active)
    {
      events := [];
      for i := 0 to |active|
        invariant snapshots == AfterActive(old(snapshots), active[..i])
        invariant events == ActiveEvents(old(snapshots), active[..i])
      {
        AfterActiveOther(old(snapshots), active[..i], active[i].id);
        var emitted := UpdateOne(active[i]);
        if emitted.Some? {
          events := events + [emitted.value];
        }
        assert active[..i + 1][..i] == active[..i];
      }
      assert active[..|active|] == active;
    }

    /** The body of the first loop of buildTrafficUpdates. */
    method UpdateOne(t: Tracker) returns (emitted: Option<Event>)
      modifies this
      ensures snapshots == old(snapshots)[t.id := Touch(At(old(snapshots), t.id), t).snapshot]
      ensures emitted == Touch(At(old(snapshots), t.id), t).event
    {
      emitted := None;
      if t.id !in snapshots {
        snapshots := snapshots[t.id := Snapshot(t.up, t.down, false)];
        return Some(New(t.id, Show(t)));
      }
      var snapshot := snapshots[t.id];
      var uplinkDelta, downlinkDelta := t.up - snapshot.uplink, t.down - snapshot.downlink;
      if uplinkDelta < 0 || downlinkDelta < 0 {
        if snapshot.hadTraffic {
          emitted := Some(Update(t.id, 0, 0));
        }
        snapshots := snapshots[t.id := Snapshot(t.up, t.down, false)];
        return;
      }
      if uplinkDelta > 0 || downlinkDelta > 0 {
        snapshots := snapshots[t.id := Snapshot(t.up, t.down, true)];
        return Some(Update(t.id, uplinkDelta, downlinkDelta));
      }
      if snapshot.hadTraffic {
        snapshots := snapshots[t.id := Snapshot(t.up, t.down, false)];
        return Some(Update(t.id, 0, 0));
      }
      assert snapshots == snapshots[t.id := snapshot];
    }
  }

  /** The closed list is searched for the connection; its own closing time wins over the clock. */
  method CloseStale(id: Id, closed: seq<Tracker>, now: Instant) returns (event: Event)
    ensures event == CloseEvent(id, closed, now)
  {
    var closedIndex: map<Id, Tracker> := map[];
    for i := 0 to |closed|
      invariant forall k :: At(closedIndex, k) == Latest(closed[..i], k)
    {
      closedIndex := closedIndex[closed[i].id := closed[i]];
      assert closed[..i + 1][..i] == closed[..i];
    }
    assert closed[..|closed|] == closed;
    assert At(closedIndex, id) == Latest(closed, id);
    if id in closedIndex {
      var t := closedIndex[id];
      var closedAt := if t.closedAt.Some? then t.closedAt.value else now;
      return Closed(id, closedAt, Some(Show(t).(closedAt := closedAt)));
    }
    return Closed(id, now, None);
  }
}
