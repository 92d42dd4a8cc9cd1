/**
 The status stream of the USB/IP servers. Every server has a producer, which offers
 device snapshots to a one-place slot and must never block, and a forwarder, which
 takes snapshots out of the slot into a channel shared by all servers. A publisher
 reads the channel and sends the known snapshot of every server.

 A snapshot is named by the number of the call that offered it. Each step below is one
 channel operation; the producers, the forwarders and the publisher interleave freely.
 */
module UsbMailbox {
  import opened Wrappers

  type Tag = string

  /** Where the one producer of a slot is inside its call. */
  datatype Producer =
    | Idle
    | Full(mine: nat)         // the first attempt found the slot full
    | Drained(mine: nat)      // the second attempt made room

  datatype Link = Link(
    produced: nat,            // calls made so far, the newest snapshot is `produced - 1`
    producer: Producer,
    slot: Option<nat>,
    dropped: nat,             // calls that ended without storing their snapshot
    held: Option<nat>,        // taken by the forwarder, not yet in the channel
    received: seq<nat>)       // everything the forwarder ever took

  datatype State = State(
    links: map<Tag, Link>,
    updates: seq<(Tag, nat)>,        // the channel, with room for one entry per server
    tags: seq<Tag>,
    deviceStates: map<Tag, nat>,
    sent: seq<(Tag, Option<nat>)>)   // the last message sent

  datatype Event =
    | Offer(tag: Tag)
    | Drain(tag: Tag)
    | OfferAgain(tag: Tag)
    | Take(tag: Tag)
    | Forward(tag: Tag)
    | Publish

  predicate Enabled(s: State, e: Event) {
    if e.Publish? then s.updates != []
    else
      e.tag in s.links &&
      var l := s.links[e.tag];
      match e
      case Offer(_) => l.producer.Idle?
      case Drain(_) => l.producer.Full?
      case OfferAgain(_) => l.producer.Drained?
      case Take(_) => l.held.None? && l.slot.Some?
      case Forward(_) => l.held.Some? && |s.updates| < |s.links|
  }

  /** The step of one link. */
  function Move(l: Link, e: Event): Link {
    match e
    case Offer(_) =>
      if l.slot.None? then l.(produced := l.produced + 1, slot := Some(l.produced))
      else l.(produced := l.produced + 1, producer := Full(l.produced))
    case Drain(_) =>
      if l.producer.Full? then l.(slot := None, producer := Drained(l.producer.mine)) else l
    case OfferAgain(_) =>
      if !l.producer.Drained? then l
      else if l.slot.None? then l.(slot := Some(l.producer.mine), producer := Idle)
      else l.(dropped := l.dropped + 1, producer := Idle)
    case Take(_) =>
      if l.slot.Some? then l.(slot := None, held := l.slot, received := l.received + [l.slot.value]) else l
    case Forward(_) => l.(held := None)
    case Publish => l
  }

  function Listing(tags: seq<Tag>, states: map<Tag, nat>): seq<(Tag, Option<nat>)> {
    seq(|tags|, i requires 0 <= i < |tags| =>
      (tags[i], if tags[i] in states then Some(states[tags[i]]) else None))
  }

  function Apply(s: State, e: Event): State
    requires Enabled(s, e)
  {
    match e
    case Publish =>
      var (tag, x) := s.updates[0];
      var tags := if tag in s.deviceStates then s.tags else s.tags + [tag];
      var states := s.deviceStates[tag := x];
      s.(updates := s.updates[1..], tags := tags, deviceStates := states, sent := Listing(tags, states))
    case Forward(tag) =>
      s.(links := s.links[tag := Move(s.links[tag], e)], updates := s.updates + [(tag, s.links[tag].held.value)])
    case _ =>
      s.(links := s.links[e.tag := Move(s.links[e.tag], e)])
  }

  const QUIET := Link(0, Idle, None, 0, None, [])

  function Initial(servers: set<Tag>): State {
    State(map t <- servers :: QUIET, [], [], map[], [])
  }

  function Exec(s: State, trace: seq<Event>): Option<State>
    decreases |trace|
  {
    if trace == [] then Some(s)
    else if !Enabled(s, trace[0]) then None
    else Exec(Apply(s, trace[0]), trace[1..])
  }

  // ------------------------------------------------------------- the one-place slot

  predicate Increasing(xs: seq<nat>) {
    forall i, j :: 0 <= i < j < |xs| ==> xs[i] < xs[j]
  }

  /** Everything received is older than `x`. */
  predicate Before(xs: seq<nat>, x: int) {
    forall i :: 0 <= i < |xs| ==> xs[i] < x
  }

  predicate LinkOk(l: Link) {
    && l.dropped == 0
    && Increasing(l.received)
    && (l.slot.Some? ==> l.slot.value < l.produced && Before(l.received, l.slot.value))
    && (l.held.Some? ==> l.received != [] && l.held.value == l.received[|l.received| - 1])
    && match l.producer
       case Idle =>
         && Before(l.received, l.produced)
         && (l.slot.Some? ==> l.slot.value == l.produced - 1)
         && (l.slot.None? && l.produced > 0 ==> l.received != [] && l.received[|l.received| - 1] == l.produced - 1)
       case Full(mine) =>
         mine == l.produced - 1 && Before(l.received, mine) && (l.slot.Some? ==> l.slot.value < mine)
       case Drained(mine) =>
         mine == l.produced - 1 && Before(l.received, mine) && l.slot.None?
  }

  lemma LinkStep(s: State, e: Event)
    requires !e.Publish? && Enabled(s, e) && LinkOk(s.links[e.tag])
    ensures LinkOk(Move(s.links[e.tag], e))
  {
    var l, r := s.links[e.tag], Move(s.links[e.tag], e);
    match e
    case Offer(_) => assert l.producer.Idle?;
    case Take(_) => assert forall i :: 0 <= i < |r.received| ==> r.received[i] <= l.slot.value;
    case _ =>
  }

  // ------------------------------------------------------------ the way to the client

  /** The newest snapshot the forwarder of `tag` took, or -1. */
  function Newest(s: State, tag: Tag): int {
    if tag in s.links && s.links[tag].received != [] then s.links[tag].received[|s.links[tag].received| - 1] else -1
  }

  predicate Holding(s: State, tag: Tag) {
    tag in s.links && s.links[tag].held.Some?
  }

  /** Per server, the channel is in order and newer than what was published. */
  predicate OrderOk(s: State, tag: Tag) {
    && (forall i, j :: 0 <= i < j < |s.updates| && s.updates[i].0 == tag && s.updates[j].0 == tag ==>
          s.updates[i].1 < s.updates[j].1)
    && (tag in s.deviceStates ==>
          forall i :: 0 <= i < |s.updates| && s.updates[i].0 == tag ==> s.deviceStates[tag] < s.updates[i].1)
  }

  /** Nothing in the channel or published is newer than what was taken, and it is older than what is held. */
  predicate BoundOk(s: State, tag: Tag) {
    var bound := if Holding(s, tag) then Newest(s, tag) - 1 else Newest(s, tag);
    && (forall i :: 0 <= i < |s.updates| && s.updates[i].0 == tag ==> s.updates[i].1 <= bound)
    && (tag in s.deviceStates ==> s.deviceStates[tag] <= bound)
  }

  ghost predicate Underway(s: State, tag: Tag, x: int) {
    || (exists i :: 0 <= i < |s.updates| && s.updates[i].0 == tag && s.updates[i].1 == x)
    || (tag in s.deviceStates && s.deviceStates[tag] == x)
  }

  /** The newest snapshot taken is held, in the channel or published. */
  ghost predicate NewestOk(s: State, tag: Tag) {
    Newest(s, tag) >= 0 && !Holding(s, tag) ==> Underway(s, tag, Newest(s, tag))
  }

  ghost predicate PublishedOk(s: State) {
    && (forall t <- s.tags :: t in s.deviceStates)
    && (forall t <- s.deviceStates :: t in s.tags)
    && (forall i, j :: 0 <= i < j < |s.tags| ==> s.tags[i] != s.tags[j])
    && s.sent == Listing(s.tags, s.deviceStates)
  }

  ghost predicate TagOk(s: State, tag: Tag) {
    && (tag in s.links ==> LinkOk(s.links[tag]))
    && OrderOk(s, tag) && BoundOk(s, tag) && NewestOk(s, tag)
  }

  ghost predicate Inv(s: State) {
    PublishedOk(s) && forall t :: TagOk(s, t)
  }

  lemma PublishedStep(s: State, e: Event)
    requires PublishedOk(s) && Enabled(s, e)
    ensures PublishedOk(Apply(s, e))
  {
  }

  lemma PublishPops(s: State)
    requires Enabled(s, Publish)
    ensures var r := Apply(s, Publish);
            && |r.updates| == |s.updates| - 1
            && (forall i :: 0 <= i < |r.updates| ==> r.updates[i] == s.updates[i + 1])
            && r.deviceStates == s.deviceStates[s.updates[0].0 := s.updates[0].1]
            && r.links == s.links
  {
  }

  lemma PublishStep(s: State, tag: Tag)
    requires Enabled(s, Publish) && TagOk(s, tag)
    ensures TagOk(Apply(s, Publish), tag)
  {
    var r := Apply(s, Publish);
    PublishPops(s);
    if Newest(s, tag) >= 0 && !Holding(s, tag) {
      if i :| 0 <= i < |s.updates| && s.updates[i].0 == tag && s.updates[i].1 == Newest(s, tag) {
        if i > 0 {
          assert r.updates[i - 1].0 == tag;
        }
      }
    }
  }

  lemma ForwardOwn(s: State, tag: Tag)
    requires Enabled(s, Forward(tag)) && TagOk(s, tag)
    ensures TagOk(Apply(s, Forward(tag)), tag)
  {
    var r := Apply(s, Forward(tag));
    LinkStep(s, Forward(tag));
    assert forall i :: 0 <= i < |s.updates| ==> r.updates[i] == s.updates[i];
    assert r.updates[|s.updates|] == (tag, Newest(s, tag));
    assert Newest(r, tag) == Newest(s, tag);
  }

  lemma ForwardOther(s: State, e: Event, tag: Tag)
    requires e.Forward? && e.tag != tag && Enabled(s, e) && TagOk(s, tag)
    ensures TagOk(Apply(s, e), tag)
  {
    var r := Apply(s, e);
    assert forall i :: 0 <= i < |s.updates| ==> r.updates[i] == s.updates[i];
    assert Newest(r, tag) == Newest(s, tag) && Holding(r, tag) == Holding(s, tag);
    if Newest(s, tag) >= 0 && !Holding(s, tag) {
      if i :| 0 <= i < |s.updates| && s.updates[i].0 == tag && s.updates[i].1 == Newest(s, tag) {
        assert r.updates[i].0 == tag;
      }
    }
  }

  lemma ForwardStep(s: State, e: Event, tag: Tag)
    requires e.Forward? && Enabled(s, e) && TagOk(s, tag)
    ensures TagOk(Apply(s, e), tag)
  {
    if e.tag == tag {
      ForwardOwn(s, tag);
    } else {
      ForwardOther(s, e, tag);
    }
  }

  lemma TakeStep(s: State, e: Event)
    requires !e.Publish? && !e.Forward? && Enabled(s, e) && TagOk(s, e.tag)
    ensures BoundOk(Apply(s, e), e.tag) && NewestOk(Apply(s, e), e.tag)
  {
    var r, l := Apply(s, e), s.links[e.tag];
    if e.Take? {
      assert Newest(r, e.tag) == l.slot.value && Newest(s, e.tag) < l.slot.value;
    } else {
      assert Newest(r, e.tag) == Newest(s, e.tag) && Holding(r, e.tag) == Holding(s, e.tag);
    }
  }

  lemma LocalStep(s: State, e: Event, tag: Tag)
    requires !e.Publish? && !e.Forward? && Enabled(s, e) && TagOk(s, tag)
    ensures TagOk(Apply(s, e), tag)
  {
    var r := Apply(s, e);
    assert r.updates == s.updates && r.deviceStates == s.deviceStates;
    if e.tag == tag {
      LinkStep(s, e);
      TakeStep(s, e);
    } else {
      assert Newest(r, tag) == Newest(s, tag) && Holding(r, tag) == Holding(s, tag);
      assert NewestOk(r, tag);
    }
  }

  lemma InvStep(s: State, e: Event)
    requires Inv(s) && Enabled(s, e)
    ensures Inv(Apply(s, e))
  {
    PublishedStep(s, e);
    forall t ensures TagOk(Apply(s, e), t) {
      if e.Publish? {
        PublishStep(s, t);
      } else if e.Forward? {
        ForwardStep(s, e, t);
      } else {
        LocalStep(s, e, t);
      }
    }
  }

  lemma {:induction false} InvRun(s: State, trace: seq<Event>)
    requires Inv(s) && Exec(s, trace).Some?
    ensures Inv(Exec(s, trace).value)
    decreases |trace|
  {
    if trace == [] {
    } else {
      InvStep(s, trace[0]);
      InvRun(Apply(s, trace[0]), trace[1..]);
    }
  }

  // ------------------------------------------------------------------------- theorems

  /** Every call of a producer stores its snapshot: the third attempt always finds the slot empty.
      What the forwarder takes is an in-order selection of what was produced, and a producer that is
      not inside a call has its newest snapshot in the slot or already taken last. */
  lemma MailboxIsLatestWins(servers: set<Tag>, trace: seq<Event>, s: State, tag: Tag)
    requires Exec(Initial(servers), trace) == Some(s) && tag in s.links
    ensures var l := s.links[tag];
            && l.dropped == 0
            && (l.producer.Drained? ==> l.slot.None?)
            && Increasing(l.received) && Before(l.received, l.produced)
            && (l.producer.Idle? && l.produced > 0 ==>
                  if l.slot.Some? then l.slot.value == l.produced - 1 else Newest(s, tag) == l.produced - 1)
  {
    assert Inv(Initial(servers));
    InvRun(Initial(servers), trace);
    assert TagOk(s, tag);
  }

  /** Once nothing is under way for a server that produced a snapshot, the last message sent shows
      its newest snapshot, and shows the server once. */
  lemma ClientSeesNewest(servers: set<Tag>, trace: seq<Event>, s: State, tag: Tag)
    requires Exec(Initial(servers), trace) == Some(s) && tag in s.links
    requires s.links[tag].produced > 0 && s.links[tag].producer.Idle?
    requires s.links[tag].slot.None? && s.links[tag].held.None?
    requires forall i :: 0 <= i < |s.updates| ==> s.updates[i].0 != tag
    ensures exists i :: 0 <= i < |s.sent| && s.sent[i] == (tag, Some(s.links[tag].produced - 1))
    ensures forall i, j :: 0 <= i < j < |s.sent| ==> s.sent[i].0 != s.sent[j].0
  {
    assert Inv(Initial(servers));
    InvRun(Initial(servers), trace);
    assert TagOk(s, tag);
    assert s.deviceStates[tag] == s.links[tag].produced - 1;
    var i :| 0 <= i < |s.tags| && s.tags[i] == tag;
    assert s.sent[i] == (tag, Some(s.deviceStates[tag]));
  }

  /** A message never shows an older snapshot of a server than the message before it. */
  lemma ClientNeverGoesBack(servers: set<Tag>, trace: seq<Event>, s: State, tag: Tag)
    requires Exec(Initial(servers), trace) == Some(s) && Enabled(s, Publish) && tag in s.deviceStates
    ensures var r := Apply(s, Publish);
            tag in r.deviceStates &&
            if s.updates[0].0 == tag then r.deviceStates[tag] > s.deviceStates[tag]
            else r.deviceStates[tag] == s.deviceStates[tag]
  {
    assert Inv(Initial(servers));
    InvRun(Initial(servers), trace);
    assert TagOk(s, tag);
  }

  lemma {:induction false} RoomRun(s: State, trace: seq<Event>)
    requires |s.updates| <= |s.links| && Exec(s, trace).Some?
    ensures var r := Exec(s, trace).value; |r.updates| <= |r.links| && r.links.Keys == s.links.Keys
    decreases |trace|
  {
    if trace == [] {
    } else {
      var r := Apply(s, trace[0]);
      if trace[0].Publish? {
      } else {
        assert r.links.Keys == s.links.Keys + {trace[0].tag} == s.links.Keys;
      }
      assert |r.links.Keys| == |r.links| && |s.links.Keys| == |s.links|;
      RoomRun(r, trace[1..]);
    }
  }

  /** The shared channel never holds more than one entry per server. */
  lemma ChannelHasRoom(servers: set<Tag>, trace: seq<Event>, s: State)
    requires Exec(Initial(servers), trace) == Some(s)
    ensures |s.updates| <= |servers|
  {
    assert Initial(servers).links.Keys == servers;
    assert |Initial(servers).links.Keys| == |Initial(servers).links|;
    RoomRun(Initial(servers), trace);
    assert |s.links.Keys| == |s.links|;
  }

  /** A producer never blocks: whatever the others do, its next channel operation is possible, and a
      call is over after at most three of them. */
  lemma ProducerNeverBlocks(s: State, tag: Tag)
    requires tag in s.links
    ensures var l := s.links[tag];
            match l.producer
            case Idle =>
              && Enabled(s, Offer(tag))
              && var r := Move(l, Offer(tag)); r.producer.Idle? || r.producer.Full?
            case Full(mine) => Enabled(s, Drain(tag)) && Move(l, Drain(tag)).producer == Drained(mine)
            case Drained(_) => Enabled(s, OfferAgain(tag)) && Move(l, OfferAgain(tag)).producer.Idle?
  {
  }
}
