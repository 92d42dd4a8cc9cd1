/**
 The per-key lock of cached DNS exchanges and the guard of background refreshes.
 The lock is a concurrent map from keys to channels: whoever stores a channel owns
 the key, everybody else waits for the channel to be closed.

 Each step below is one atomic operation of the concurrent map or of a channel;
 any number of exchanges and refreshes interleave.
 */
module SingleFlight {
  import opened Wrappers

  type Key = nat
  type Thread = nat
  type Channel = nat

  datatype PC =
    | Entering(key: Key)                      // before LoadOrStore
    | Waiting(key: Key, channel: Channel)     // in the select
    | Owning(key: Key, channel: Channel)      // exchanging, with the deferred release pending
    | Removed(key: Key, channel: Channel)     // between Delete and close
    | Following(key: Key)                     // a waiter that was woken
    | Returned

  datatype Task = Refreshing(key: Key) | Finished

  /** `publisher` records who stored a channel, `closes` how often it was closed; the values of
      `backgroundRefresh` record who inserted the key. */
  datatype State = State(
    cacheLock: map<Key, Channel>,
    publisher: map<Channel, Thread>,
    closes: map<Channel, nat>,
    exchanges: map<Thread, PC>,
    backgroundRefresh: map<Key, Thread>,
    refreshes: map<Thread, Task>)

  datatype Event =
    | Begin(key: Key)
    | LoadOrStore(channel: Channel)
    | Wake
    | GiveUp                                  // timeout or canceled context
    | Refresh(key: Key, task: Thread)         // a stale response was served
    | Return
    | Delete
    | CloseChannel
    | EndRefresh                              // the refresh goroutine runs its deferred Delete

  function Closes(s: State, c: Channel): nat {
    if c in s.closes then s.closes[c] else 0
  }

  /** A stale response is found by an exchange that owns its key or was woken, or by a thread that
      reads the cache without the lock. */
  predicate Enabled(s: State, t: Thread, e: Event) {
    if e.Begin? then t !in s.exchanges
    else if e.Refresh? then
      && e.task !in s.refreshes
      && (t in s.exchanges ==>
            && (s.exchanges[t].Owning? || s.exchanges[t].Following?)
            && s.exchanges[t].key == e.key)
    else if e.EndRefresh? then t in s.refreshes && s.refreshes[t].Refreshing?
    else
      t in s.exchanges &&
      var pc := s.exchanges[t];
      match e
      case LoadOrStore(c) => pc.Entering? && c !in s.publisher
      case Wake => pc.Waiting? && Closes(s, pc.channel) > 0
      case GiveUp => pc.Waiting?
      case Return => pc.Following?
      case Delete => pc.Owning?
      case CloseChannel => pc.Removed?
  }

  function Goto(s: State, t: Thread, pc: PC): State {
    s.(exchanges := s.exchanges[t := pc])
  }

  function Apply(s: State, t: Thread, e: Event): State
    requires Enabled(s, t, e)
  {
    match e
    case Begin(key) => Goto(s, t, Entering(key))
    case LoadOrStore(c) =>
      var key := s.exchanges[t].key;
      if key in s.cacheLock then Goto(s, t, Waiting(key, s.cacheLock[key]))
      else Goto(s.(cacheLock := s.cacheLock[key := c], publisher := s.publisher[c := t]), t, Owning(key, c))
    case Wake => Goto(s, t, Following(s.exchanges[t].key))
    case GiveUp => Goto(s, t, Returned)
    case Refresh(key, task) =>
      if key in s.backgroundRefresh then s
      else s.(backgroundRefresh := s.backgroundRefresh[key := task], refreshes := s.refreshes[task := Refreshing(key)])
    case Return => Goto(s, t, Returned)
    case Delete =>
      var key, c := s.exchanges[t].key, s.exchanges[t].channel;
      Goto(s.(cacheLock := s.cacheLock - {key}), t, Removed(key, c))
    case CloseChannel =>
      var c := s.exchanges[t].channel;
      Goto(s.(closes := s.closes[c := Closes(s, c) + 1]), t, Returned)
    case EndRefresh =>
      var key := s.refreshes[t].key;
      s.(backgroundRefresh := s.backgroundRefresh - {key}, refreshes := s.refreshes[t := Finished])
  }

  const INITIAL := State(map[], map[], map[], map[], map[], map[])

  function Exec(s: State, trace: seq<(Thread, Event)>): Option<State>
    decreases |trace|
  {
    if trace == [] then Some(s)
    else if !Enabled(s, trace[0].0, trace[0].1) then None
    else Exec(Apply(s, trace[0].0, trace[0].1), trace[1..])
  }

  // ---------------------------------------------------------------- invariants

  /** `t` is the exchange in flight that will close `c`. */
  predicate Owns(s: State, t: Thread, c: Channel) {
    t in s.exchanges && (s.exchanges[t].Owning? || s.exchanges[t].Removed?) && s.exchanges[t].channel == c
  }

  /** An owner published its channel, has not closed it yet, and holds the map entry of its key
      until it deletes it; whoever waits, waits for a published channel. */
  predicate ExchangeOk(s: State, t: Thread) {
    t in s.exchanges ==>
      var pc := s.exchanges[t];
      && (pc.Owning? || pc.Removed? ==>
            pc.channel in s.publisher && s.publisher[pc.channel] == t && Closes(s, pc.channel) == 0)
      && (pc.Owning? ==> pc.key in s.cacheLock && s.cacheLock[pc.key] == pc.channel)
      && (pc.Waiting? ==> pc.channel in s.publisher)
  }

  /** The channel stored under a key belongs to an exchange that has not deleted it yet. */
  predicate KeyOk(s: State, k: Key) {
    k in s.cacheLock ==>
      var c := s.cacheLock[k];
      c in s.publisher && s.publisher[c] in s.exchanges && s.exchanges[s.publisher[c]] == Owning(k, c)
  }

  /** A published channel is owned, or has been closed exactly once; no other channel is closed. */
  predicate ChannelOk(s: State, c: Channel) {
    Closes(s, c) == if c !in s.publisher || Owns(s, s.publisher[c], c) then 0 else 1
  }

  predicate MarkOk(s: State, k: Key) {
    k in s.backgroundRefresh ==>
      s.backgroundRefresh[k] in s.refreshes && s.refreshes[s.backgroundRefresh[k]] == Refreshing(k)
  }

  predicate TaskOk(s: State, t: Thread) {
    t in s.refreshes && s.refreshes[t].Refreshing? ==>
      s.refreshes[t].key in s.backgroundRefresh && s.backgroundRefresh[s.refreshes[t].key] == t
  }

  ghost predicate Inv(s: State) {
    && (forall t :: ExchangeOk(s, t))
    && (forall k :: KeyOk(s, k))
    && (forall c :: ChannelOk(s, c))
    && (forall k :: MarkOk(s, k))
    && (forall t :: TaskOk(s, t))
  }

  lemma ExchangeStep(s: State, t: Thread, e: Event, u: Thread)
    requires Enabled(s, t, e) && ExchangeOk(s, t) && ExchangeOk(s, u)
    requires t in s.exchanges && s.exchanges[t].Entering? ==> KeyOk(s, s.exchanges[t].key)
    requires e.LoadOrStore? ==> ChannelOk(s, e.channel)
    ensures ExchangeOk(Apply(s, t, e), u)
  {
  }

  lemma KeyStep(s: State, t: Thread, e: Event, k: Key)
    requires Enabled(s, t, e) && ExchangeOk(s, t) && KeyOk(s, k)
    ensures KeyOk(Apply(s, t, e), k)
  {
  }

  lemma ChannelStep(s: State, t: Thread, e: Event, c: Channel)
    requires Enabled(s, t, e) && ExchangeOk(s, t) && ChannelOk(s, c)
    ensures ChannelOk(Apply(s, t, e), c)
  {
  }

  lemma RefreshStep(s: State, t: Thread, e: Event)
    requires (forall k :: MarkOk(s, k)) && (forall u :: TaskOk(s, u)) && Enabled(s, t, e)
    ensures (forall k :: MarkOk(Apply(s, t, e), k)) && (forall u :: TaskOk(Apply(s, t, e), u))
  {
    var r := Apply(s, t, e);
    forall k ensures MarkOk(r, k) {
      assert MarkOk(s, k);
    }
    forall u ensures TaskOk(r, u) {
      assert TaskOk(s, u) && TaskOk(s, t);
    }
  }

  lemma InvStep(s: State, t: Thread, e: Event)
    requires Inv(s) && Enabled(s, t, e)
    ensures Inv(Apply(s, t, e))
  {
    var r := Apply(s, t, e);
    forall u ensures ExchangeOk(r, u) { ExchangeStep(s, t, e, u); }
    forall k ensures KeyOk(r, k) { KeyStep(s, t, e, k); }
    forall c ensures ChannelOk(r, c) { ChannelStep(s, t, e, c); }
    RefreshStep(s, t, e);
  }

  lemma {:induction false} InvRun(s: State, trace: seq<(Thread, Event)>)
    requires Inv(s) && Exec(s, trace).Some?
    ensures Inv(Exec(s, trace).value)
    decreases |trace|
  {
    if trace == [] {
    } else {
      InvStep(s, trace[0].0, trace[0].1);
      InvRun(Apply(s, trace[0].0, trace[0].1), trace[1..]);
    }
  }

  // ------------------------------------------------------------------- theorems

  /** In every interleaving, a channel in the map has exactly one owner in flight, and a published
      channel is open while it has an owner and closed exactly once when it has none. */
  lemma EachChannelHasOneOwner(trace: seq<(Thread, Event)>, s: State, c: Channel)
    requires Exec(INITIAL, trace) == Some(s)
    ensures c in s.cacheLock.Values ==> exists t :: Owns(s, t, c)
    ensures forall t, u :: Owns(s, t, c) && Owns(s, u, c) ==> t == u
    ensures (exists t :: Owns(s, t, c)) ==> Closes(s, c) == 0
    ensures c in s.publisher && !(exists t :: Owns(s, t, c)) ==> Closes(s, c) == 1
    ensures c !in s.publisher ==> Closes(s, c) == 0
  {
    InvRun(INITIAL, trace);
    assert ChannelOk(s, c);
    if c in s.cacheLock.Values {
      var k :| k in s.cacheLock && s.cacheLock[k] == c;
      assert KeyOk(s, k);
      assert Owns(s, s.publisher[c], c);
    }
    forall t | Owns(s, t, c) ensures c in s.publisher && t == s.publisher[c] && Closes(s, c) == 0 {
      assert ExchangeOk(s, t);
    }
  }

  /** No two exchanges are in flight under the same key, from the moment one has stored its channel until
      it deletes it. */
  lemma OneExchangePerKey(trace: seq<(Thread, Event)>, s: State, t: Thread, u: Thread)
    requires Exec(INITIAL, trace) == Some(s) && t in s.exchanges && u in s.exchanges
    requires s.exchanges[t].Owning? && s.exchanges[u].Owning? && s.exchanges[t].key == s.exchanges[u].key
    ensures t == u
  {
    InvRun(INITIAL, trace);
    assert ExchangeOk(s, t) && ExchangeOk(s, u);
  }

  /** An exchange becomes the owner of its key exactly if nobody is; otherwise it waits for the owner. */
  lemma EnteringDecides(trace: seq<(Thread, Event)>, s: State, t: Thread, c: Channel)
    requires Exec(INITIAL, trace) == Some(s) && Enabled(s, t, LoadOrStore(c))
    ensures var k, r := s.exchanges[t].key, Apply(s, t, LoadOrStore(c));
            if exists u <- s.exchanges :: s.exchanges[u].Owning? && s.exchanges[u].key == k then
              r.exchanges[t].Waiting? && exists u :: Owns(r, u, r.exchanges[t].channel)
            else r.exchanges[t] == Owning(k, c)
  {
    InvRun(INITIAL, trace);
    var k := s.exchanges[t].key;
    assert KeyOk(s, k);
    if u :| u in s.exchanges && s.exchanges[u].Owning? && s.exchanges[u].key == k {
      assert ExchangeOk(s, u);
      assert Owns(Apply(s, t, LoadOrStore(c)), u, s.cacheLock[k]);
    }
  }

  /** The entry an owner deletes is its own: nobody else has taken the key in the meantime. */
  lemma DeletesOwnEntry(trace: seq<(Thread, Event)>, s: State, t: Thread)
    requires Exec(INITIAL, trace) == Some(s) && t in s.exchanges && Enabled(s, t, Delete)
    ensures s.exchanges[t].key in s.cacheLock && s.cacheLock[s.exchanges[t].key] == s.exchanges[t].channel
  {
    InvRun(INITIAL, trace);
    assert ExchangeOk(s, t);
  }

  /** No waiter is stuck: its channel is closed and it can wake, or the owner of the channel is in
      flight and can take the next step towards closing it. */
  lemma WaitersAreServed(trace: seq<(Thread, Event)>, s: State, t: Thread)
    requires Exec(INITIAL, trace) == Some(s)
    requires t in s.exchanges && s.exchanges[t].Waiting?
    ensures Enabled(s, t, Wake) <==> !(exists u :: Owns(s, u, s.exchanges[t].channel))
    ensures Enabled(s, t, Wake) ==> Apply(s, t, Wake).exchanges[t] == Following(s.exchanges[t].key)
    ensures || Enabled(s, t, Wake)
            || exists u :: Owns(s, u, s.exchanges[t].channel) && (Enabled(s, u, Delete) || Enabled(s, u, CloseChannel))
  {
    InvRun(INITIAL, trace);
    assert ExchangeOk(s, t);
    var c := s.exchanges[t].channel;
    assert ChannelOk(s, c);
    if !Enabled(s, t, Wake) {
      assert Owns(s, s.publisher[c], c);
    }
    forall u | Owns(s, u, c) ensures Closes(s, c) == 0 {
      assert ExchangeOk(s, u);
    }
  }

  /** At most one background refresh per key is in flight, and the key is marked exactly as long. */
  lemma OneRefreshPerKey(trace: seq<(Thread, Event)>, s: State, k: Key)
    requires Exec(INITIAL, trace) == Some(s)
    ensures k in s.backgroundRefresh <==> exists t <- s.refreshes :: s.refreshes[t] == Refreshing(k)
    ensures forall t <- s.refreshes, u <- s.refreshes ::
              s.refreshes[t] == Refreshing(k) && s.refreshes[u] == Refreshing(k) ==> t == u
  {
    InvRun(INITIAL, trace);
    assert MarkOk(s, k);
    forall t <- s.refreshes | s.refreshes[t] == Refreshing(k)
      ensures k in s.backgroundRefresh && s.backgroundRefresh[k] == t
    {
      assert TaskOk(s, t);
    }
  }

  /** A stale response that is served has a refresh under way: a new one, unless one was already. */
  lemma RefreshIsUnderWay(trace: seq<(Thread, Event)>, s: State, t: Thread, k: Key, task: Thread)
    requires Exec(INITIAL, trace) == Some(s) && Enabled(s, t, Refresh(k, task))
    ensures var r := Apply(s, t, Refresh(k, task));
            && (exists u <- r.refreshes :: r.refreshes[u] == Refreshing(k))
            && (if exists u <- s.refreshes :: s.refreshes[u] == Refreshing(k) then r.refreshes == s.refreshes
                else r.refreshes == s.refreshes[task := Refreshing(k)])
  {
    OneRefreshPerKey(trace, s, k);
    var r := Apply(s, t, Refresh(k, task));
    if u :| u in s.refreshes && s.refreshes[u] == Refreshing(k) {
      assert r.refreshes[u] == Refreshing(k);
    } else {
      assert r.refreshes[task] == Refreshing(k);
    }
  }
}
