/**
 What the response cache promises over every run: any sequence of received
 responses, queries, evictions and purges on a clock that does not go back.
 */
module CacheRuns {
  import opened Wrappers
  import opened DnsRules
  import opened DnsMessage
  import opened ResponseCache

  /** `ttl` and `kept` are what applyResponseOptions makes of the response. */
  datatype Event =
    | Received(key: Key, now: Time, response: Value, rejected: bool, strategy: Strategy,
               rewriteTTL: Option<TTL>, ttl: TTL, kept: Value)
    | Queried(key: Key, now: Time)
    | Evicted(key: Key)
    | Purged

  ghost predicate WellFormed(e: Event) {
    e.Received? ==> Treated(e.response, e.key.question.qtype, e.strategy, e.rewriteTTL, e.ttl, e.kept)
  }

  predicate Timed(e: Event) { e.Received? || e.Queried? }

  ghost predicate IsRun(events: seq<Event>) {
    && (forall e <- events :: WellFormed(e))
    && forall i, j :: 0 <= i < j < |events| && Timed(events[i]) && Timed(events[j]) ==> events[i].now <= events[j].now
  }

  /** Both Exchange and the background refresh store only NOERROR and NXDOMAIN responses that
      were not rejected by the rule. */
  predicate Admitted(e: Event) {
    && e.Received? && !e.rejected && e.ttl > 0
    && (e.response.rcode == RCODE_SUCCESS || e.response.rcode == RCODE_NAME_ERROR)
  }

  function Step(cfg: Config, contents: Contents, e: Event): Contents {
    match e
    case Received(key, now, response, rejected, _, _, ttl, kept) =>
      if rejected || (response.rcode != RCODE_SUCCESS && response.rcode != RCODE_NAME_ERROR) then contents
      else Stored(contents, key, kept, ttl, now)
    case Queried(key, now) => AfterLoad(cfg, contents, key, now)
    case Evicted(key) => contents - {key}
    case Purged => map[]
  }

  function After(cfg: Config, events: seq<Event>, n: nat): Contents
    requires n <= |events|
  {
    if n == 0 then map[] else Step(cfg, After(cfg, events, n - 1), events[n - 1])
  }

  /** `j` is the latest event before `n` that stored a response under `key`. */
  ghost predicate LatestStore(events: seq<Event>, n: nat, key: Key, j: nat) {
    && j < n <= |events| && Admitted(events[j]) && events[j].key == key
    && forall i :: j < i < n ==> !(Admitted(events[i]) && events[i].key == key)
  }

  /** Every entry is the latest response stored under its exact question and transport. */
  lemma {:induction false} EntryOrigin(cfg: Config, events: seq<Event>, n: nat, key: Key) returns (j: nat)
    requires n <= |events| && key in After(cfg, events, n)
    ensures LatestStore(events, n, key, j)
    ensures After(cfg, events, n)[key] == Entry(events[j].kept, events[j].now + events[j].ttl * SECOND)
  {
    var e := events[n - 1];
    if Admitted(e) && e.key == key {
      j := n - 1;
    } else {
      j := EntryOrigin(cfg, events, n - 1, key);
    }
  }

  /** What a hit at time `now` may be, given the event that stored the response. */
  ghost predicate Explains(cfg: Config, e: Event, now: Time, hit: Hit)
    requires Admitted(e)
  {
    var age := now - e.now;
    var lifetime := e.ttl * SECOND;
    if cfg.disableExpire then hit == Hit(e.kept, 0, false)
    else if age <= lifetime then
      // fresh: the remaining whole seconds, never above the stored TTL
      && !hit.stale && hit.ttl <= e.ttl && hit.value == Normalized(e.kept, hit.ttl)
      && hit.ttl * SECOND <= lifetime - age < (hit.ttl + 1) * SECOND
    else
      // stale: TTL 1, inside the optimistic window only
      && cfg.optimisticTimeout > 0 && age < lifetime + cfg.optimisticTimeout
      && hit == Hit(Normalized(e.kept, 1), 0, true)
  }

  lemma Division(left: int, ttl: TTL)
    requires 0 <= left <= ttl * SECOND
    ensures 0 <= left / SECOND <= ttl
    ensures (left / SECOND) * SECOND <= left < (left / SECOND + 1) * SECOND
  {
  }

  /** A cache hit is the latest response stored under that exact question and transport tag, with
      NOERROR or NXDOMAIN and a positive lifetime, aged or stale as configured. */
  lemma HitExplained(cfg: Config, events: seq<Event>, n: nat, key: Key, now: Time) returns (j: nat)
    requires n <= |events| && IsRun(events)
    requires forall i :: 0 <= i < n && Timed(events[i]) ==> events[i].now <= now
    requires Load(cfg, After(cfg, events, n), key, now).Some?
    ensures LatestStore(events, n, key, j)
    ensures Explains(cfg, events[j], now, Load(cfg, After(cfg, events, n), key, now).value)
  {
    j := EntryOrigin(cfg, events, n, key);
    var e := events[j];
    var entry := Entry(e.kept, e.now + e.ttl * SECOND);
    if !cfg.disableExpire && !Expired(cfg, entry, now) {
      Division(e.ttl * SECOND - (now - e.now), e.ttl);
    }
  }

  /** Rewriting the TTL of a rewritten response forgets the first TTL. */
  lemma RetimedTwice(v: Value, w: Value)
    requires w == v || exists ttl: TTL :: w == Normalized(v, ttl)
    ensures Normalized(w, 0) == Normalized(v, 0)
  {
  }

  function Expiry(e: Event): Time
    requires e.Received?
  {
    e.now + e.ttl * SECOND
  }

  /** Between two queries of a run that are served the same stored response, the TTL in a record does
      not grow, except when the first came within the last second, which is served as 0, and the
      second after the expiry, which is served as 1. */
  lemma RecordTTLShrinksIff(cfg: Config, events: seq<Event>, key: Key, n1: nat, n2: nat, j: nat, i: nat)
    requires IsRun(events) && n1 < n2 < |events| && events[n1].Queried? && events[n2].Queried?
    requires LatestStore(events, n2, key, j) && j < n1
    requires i < |events[j].kept.records| && Counts(events[j].kept.records[i])
    requires Load(cfg, After(cfg, events, n1), key, events[n1].now).Some?
    requires Load(cfg, After(cfg, events, n2), key, events[n2].now).Some?
    ensures var hit1 := Load(cfg, After(cfg, events, n1), key, events[n1].now).value;
            var hit2 := Load(cfg, After(cfg, events, n2), key, events[n2].now).value;
            && |hit1.value.records| == |hit2.value.records| == |events[j].kept.records|
            && (hit2.value.records[i].ttl <= hit1.value.records[i].ttl <==>
                  || cfg.disableExpire
                  || !(0 <= Expiry(events[j]) - events[n1].now < SECOND)
                  || events[n2].now <= Expiry(events[j]))
  {
    var j1 := HitExplained(cfg, events, n1, key, events[n1].now);
    var j2 := HitExplained(cfg, events, n2, key, events[n2].now);
    assert j1 == j && j2 == j;
  }

  /** Nothing but the TTL differs between the two, stale stays stale, and the number of seconds left,
      which is only logged, does not grow. */
  lemma OnlyTTLChanges(cfg: Config, events: seq<Event>, key: Key, n1: nat, n2: nat, j: nat)
    requires IsRun(events) && n1 < n2 < |events| && events[n1].Queried? && events[n2].Queried?
    requires LatestStore(events, n2, key, j) && j < n1
    requires Load(cfg, After(cfg, events, n1), key, events[n1].now).Some?
    requires Load(cfg, After(cfg, events, n2), key, events[n2].now).Some?
    ensures var hit1 := Load(cfg, After(cfg, events, n1), key, events[n1].now).value;
            var hit2 := Load(cfg, After(cfg, events, n2), key, events[n2].now).value;
            && (hit1.stale ==> hit2.stale) && hit2.ttl <= hit1.ttl
            && Normalized(hit1.value, 0) == Normalized(hit2.value, 0)
  {
    var j1 := HitExplained(cfg, events, n1, key, events[n1].now);
    var j2 := HitExplained(cfg, events, n2, key, events[n2].now);
    assert j1 == j && j2 == j;
    RetimedTwice(events[j].kept, Load(cfg, After(cfg, events, n1), key, events[n1].now).value.value);
    RetimedTwice(events[j].kept, Load(cfg, After(cfg, events, n2), key, events[n2].now).value.value);
  }

  const HALF_SECOND: Time := 500_000_000

  const OPTIMISTIC := Config(false, 10 * SECOND)

  const QUESTION := Key(Question("example.org.", 1, 1), "server")

  const ANSWER := Value(RCODE_SUCCESS, [RR(Answers, 1, 5, Plain(0))])

  function GrowingRun(): seq<Event> {
    [Received(QUESTION, 0, ANSWER, false, AsIS, None, 5, ANSWER),
     Queried(QUESTION, 4 * SECOND + HALF_SECOND),
     Queried(QUESTION, 6 * SECOND)]
  }

  /** The TTL does grow: a response stored for 5 seconds is served with 0 after 4.5 and with 1 after 6. */
  lemma RecordTTLMayGrow()
    ensures IsRun(GrowingRun())
    ensures var events := GrowingRun();
            var hit1 := Load(OPTIMISTIC, After(OPTIMISTIC, events, 1), QUESTION, events[1].now);
            var hit2 := Load(OPTIMISTIC, After(OPTIMISTIC, events, 2), QUESTION, events[2].now);
            && hit1.Some? && |hit1.value.value.records| == 1 && hit1.value.value.records[0].ttl == 0
            && hit2.Some? && |hit2.value.value.records| == 1 && hit2.value.value.records[0].ttl == 1
  {
    var events := GrowingRun();
    AnswerIsTreated();
    assert After(OPTIMISTIC, events, 0) == map[];
    assert After(OPTIMISTIC, events, 1) == map[QUESTION := Entry(ANSWER, 5 * SECOND)];
    assert After(OPTIMISTIC, events, 2) == After(OPTIMISTIC, events, 1);
  }

  lemma AnswerIsTreated()
    ensures Treated(ANSWER, 1, AsIS, None, 5, ANSWER)
  {
    var record := ANSWER.records[0];
    assert record in ANSWER.records && forall r <- ANSWER.records :: r == record;
    assert IsFiltered(ANSWER, 1, AsIS, ANSWER);
    assert Normalized(ANSWER, 5).records == ANSWER.records;
  }

  /** A response stored by `e` may be served at time `now`. */
  predicate InTime(cfg: Config, e: Event, now: Time)
    requires e.Received?
  {
    || cfg.disableExpire
    || now <= Expiry(e)
    || (cfg.optimisticTimeout > 0 && now < Expiry(e) + cfg.optimisticTimeout)
  }

  lemma {:induction false} StoredStays(cfg: Config, events: seq<Event>, n: nat, key: Key, j: nat, now: Time)
    requires n <= |events| && IsRun(events) && LatestStore(events, n, key, j)
    requires forall i :: j < i < n ==> !events[i].Purged? && events[i] != Evicted(key)
    requires forall i :: 0 <= i < n && Timed(events[i]) ==> events[i].now <= now
    requires InTime(cfg, events[j], now)
    ensures key in After(cfg, events, n)
  {
    if n == j + 1 {
    } else {
      StoredStays(cfg, events, n - 1, key, j, now);
      var k := EntryOrigin(cfg, events, n - 1, key);
      assert k == j;
    }
  }

  /** Conversely, a response that was stored and not dropped is served exactly as long as it is fresh or
      inside the optimistic window, however often it was asked for in between. */
  lemma ServedIff(cfg: Config, events: seq<Event>, n: nat, key: Key, j: nat, now: Time)
    requires n <= |events| && IsRun(events) && LatestStore(events, n, key, j)
    requires forall i :: j < i < n ==> !events[i].Purged? && events[i] != Evicted(key)
    requires forall i :: 0 <= i < n && Timed(events[i]) ==> events[i].now <= now
    ensures Load(cfg, After(cfg, events, n), key, now).Some? <==> InTime(cfg, events[j], now)
  {
    if InTime(cfg, events[j], now) {
      StoredStays(cfg, events, n, key, j, now);
    }
    if key in After(cfg, events, n) {
      var k := EntryOrigin(cfg, events, n, key);
      assert k == j;
    }
  }
}
