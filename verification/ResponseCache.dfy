/**
 The in-memory response cache of the DNS client: what is admitted, how long it is
 served, and that neither side can change the other's records.  The LRU map
 underneath may drop entries at any time.
 */
module ResponseCache {
  import opened Wrappers
  import opened DnsRules
  import opened DnsMessage

  datatype Question = Question(name: string, qtype: nat, qclass: nat)

  datatype Key = Key(question: Question, transportTag: string)

  /** Nanoseconds. */
  type Time = int

  const SECOND: Time := 1_000_000_000

  datatype Config = Config(disableExpire: bool, optimisticTimeout: nat)

  datatype Entry = Entry(value: Value, expireAt: Time)

  /** What a lookup returns: the response, its remaining seconds and whether it is stale. */
  datatype Hit = Hit(value: Value, ttl: nat, stale: bool)

  type Contents = map<Key, Entry>

  // ------------------------------------------------------------- specification

  function Stored(contents: Contents, key: Key, value: Value, ttl: TTL, now: Time): Contents {
    if ttl == 0 then contents else contents[key := Entry(value, now + ttl * SECOND)]
  }

  function Expired(cfg: Config, e: Entry, now: Time): bool {
    !cfg.disableExpire && now > e.expireAt
  }

  function Servable(cfg: Config, e: Entry, now: Time): bool {
    Expired(cfg, e, now) ==> cfg.optimisticTimeout > 0 && now < e.expireAt + cfg.optimisticTimeout
  }

  /** Whole seconds left.  An entry never has more left than a uint32 holds. */
  function SecondsLeft(e: Entry, now: Time): nat {
    if now >= e.expireAt then 0 else (e.expireAt - now) / SECOND
  }

  function Load(cfg: Config, contents: Contents, key: Key, now: Time): Option<Hit> {
    if key !in contents || !Servable(cfg, contents[key], now) then None
    else
      var e := contents[key];
      if cfg.disableExpire then Some(Hit(e.value, 0, false))
      else if Expired(cfg, e, now) then Some(Hit(Normalized(e.value, 1), 0, true))
      else
        var left := SecondsLeft(e, now);
        Some(Hit(Normalized(e.value, left % 0x1_0000_0000), left, false))
  }

  function AfterLoad(cfg: Config, contents: Contents, key: Key, now: Time): Contents {
    if key in contents && !Servable(cfg, contents[key], now) then contents - {key} else contents
  }

  // ------------------------------------------------------------------ the object

  datatype Slot = Slot(msg: Msg, expireAt: Time)

  /** `contents` is the value of the cache and `repr` the records it owns. */
  class Cache {
    const cfg: Config
    var slots: map<Key, Slot>
    ghost var contents: Contents
    ghost var repr: set<Record>

    ghost predicate Holds(k: Key)
      requires k in slots
      reads this, repr
    {
      && k in contents && (set r <- slots[k].msg.records) <= repr
      && contents[k] == Entry(View(slots[k].msg), slots[k].expireAt)
    }

    ghost predicate Valid()
      reads this, repr
    {
      slots.Keys == contents.Keys && forall k <- slots :: Holds(k)
    }

    constructor (cfg: Config)
      ensures Valid() && this.cfg == cfg && contents == map[] && repr == {}
    {
      this.cfg := cfg;
      slots, contents, repr := map[], map[], {};
    }

    /** storeCache.  The cache keeps its own copy. */
    method StoreCache(key: Key, message: Msg, ttl: TTL, now: Time)
      requires Valid()
      modifies this
      ensures Valid() && fresh(repr - old(repr))
      ensures contents == Stored(old(contents), key, old(View(message)), ttl, now)
    {
      if ttl == 0 {
        return;
      }
      var copy := Copy(message);
      slots := slots[key := Slot(copy, now + ttl * SECOND)];
      contents := contents[key := Entry(View(copy), now + ttl * SECOND)];
      repr := repr + set r <- copy.records;
      forall k <- slots | k != key ensures Holds(k) {
        assert old(Holds(k));
      }
    }

    /** loadResponse.  The caller gets records of its own. */
    method LoadResponse(key: Key, now: Time) returns (hit: Option<(Msg, nat, bool)>)
      requires Valid()
      modifies this
      ensures Valid() && repr == old(repr)
      ensures contents == AfterLoad(cfg, old(contents), key, now)
      ensures hit.Some? ==> fresh(hit.value.0.records) && forall r <- hit.value.0.records :: r !in repr
      ensures Load(cfg, old(contents), key, now) ==
              if hit.Some? then Some(Hit(View(hit.value.0), hit.value.1, hit.value.2)) else None
    {
      if key !in slots {
        return None;
      }
      assert Holds(key);
      var slot := slots[key];
      if cfg.disableExpire {
        var response := Copy(slot.msg);
        return Some((response, 0, false));
      }
      if now > slot.expireAt {
        if cfg.optimisticTimeout > 0 && now < slot.expireAt + cfg.optimisticTimeout {
          var response := CopyRetimed(slot.msg, 1);
          return Some((response, 0, true));
        }
        slots := slots - {key};
        contents := contents - {key};
        return None;
      }
      var nowTTL := (slot.expireAt - now) / SECOND;
      if nowTTL < 0 {
        nowTTL := 0;
      }
      var response := CopyRetimed(slot.msg, nowTTL % 0x1_0000_0000);
      return Some((response, nowTTL, false));
    }
  }

  method CopyRetimed(m: Msg, ttl: TTL) returns (c: Msg)
    ensures fresh(c.records) && View(c) == Normalized(View(m), ttl)
  {
    c := Copy(m);
    NormalizeTTL(c, ttl);
  }

  // ------------------------------------------------------------ response options

  predicate KeepsHint(strategy: Strategy, h: Hint) {
    if strategy == IPv4Only then h != IPv6Hint else h != IPv4Hint
  }

  function KeptHints(strategy: Strategy, hints: seq<Hint>): seq<Hint> {
    if hints == [] then []
    else if KeepsHint(strategy, hints[0]) then [hints[0]] + KeptHints(strategy, hints[1..])
    else KeptHints(strategy, hints[1..])
  }

  predicate FiltersHints(qtype: nat, strategy: Strategy) {
    qtype == TYPE_HTTPS && (strategy == IPv4Only || strategy == IPv6Only)
  }

  /** Under an address-family strategy the hints of the other family leave the answer. */
  function Filtered(r: RR, strategy: Strategy): RR {
    if r.section.Answers? && r.body.HTTPS? then r.(body := HTTPS(KeptHints(strategy, r.body.hints))) else r
  }

  ghost predicate IsFiltered(v: Value, qtype: nat, strategy: Strategy, f: Value) {
    && f.rcode == v.rcode && |f.records| == |v.records|
    && forall i :: 0 <= i < |v.records| ==>
         f.records[i] == if FiltersHints(qtype, strategy) then Filtered(v.records[i], strategy) else v.records[i]
  }

  /** How a response with these options is treated: `ttl` is its lifetime, `out` what is kept of it. */
  ghost predicate Treated(v: Value, qtype: nat, strategy: Strategy, rewriteTTL: Option<TTL>, ttl: TTL, out: Value) {
    && (if rewriteTTL.Some? then ttl == rewriteTTL.value else IsTimeToLive(ttl, v))
    && exists f :: IsFiltered(v, qtype, strategy, f) && out == Normalized(f, ttl)
  }

  /** Record by record: an HTTPS answer to an HTTPS query loses hints under an address-family strategy,
      every record but OPT gets the TTL, and nothing else changes. */
  lemma TreatedIs(v: Value, qtype: nat, strategy: Strategy, rewriteTTL: Option<TTL>, ttl: TTL, out: Value, i: nat)
    requires Treated(v, qtype, strategy, rewriteTTL, ttl, out) && i < |v.records|
    ensures rewriteTTL.Some? ==> ttl == rewriteTTL.value
    ensures |out.records| == |v.records| && out.rcode == v.rcode
    ensures var r, o := v.records[i], out.records[i];
            && o.section == r.section && o.rrtype == r.rrtype
            && o.ttl == (if r.rrtype == 41 then r.ttl else ttl)
            && o.body ==
                 if qtype == 65 && (strategy == IPv4Only || strategy == IPv6Only) &&
                    r.section == Answers && r.body.HTTPS? then HTTPS(KeptHints(strategy, r.body.hints))
                 else r.body
  {
  }

  method KeepHints(strategy: Strategy, hints: seq<Hint>) returns (kept: seq<Hint>)
    ensures kept == KeptHints(strategy, hints)
  {
    kept := [];
    assert hints[0..] == hints;
    for i := 0 to |hints|
      invariant KeptHints(strategy, hints) == kept + KeptHints(strategy, hints[i..])
    {
      assert hints[i..][1..] == hints[i + 1..];
      if KeepsHint(strategy, hints[i]) {
        kept := kept + [hints[i]];
      }
    }
  }

  method FilterHints(m: Msg, strategy: Strategy)
    modifies m.records
    ensures forall r <- m.records :: r.Now() == Filtered(old(r.Now()), strategy)
  {
    for i := 0 to |m.records|
      invariant forall r <- m.records :: r.Now() == old(r.Now()) || r.Now() == Filtered(old(r.Now()), strategy)
      invariant forall k :: 0 <= k < i ==> m.records[k].Now() == Filtered(old(m.records[k].Now()), strategy)
    {
      var r := m.records[i];
      if !r.section.Answers? || !r.body.HTTPS? {
        continue;
      }
      FilteredTwice(old(r.Now()), strategy);
      var kept := KeepHints(strategy, r.body.hints);
      r.body := HTTPS(kept);
    }
  }

  /** Of the hints only the address hints of the other family leave, and the others keep their order. */
  lemma {:induction false} KeptHintsExact(strategy: Strategy, hints: seq<Hint>, h: Hint)
    requires strategy == IPv4Only || strategy == IPv6Only
    ensures multiset(KeptHints(strategy, hints))[h] ==
            if (strategy == IPv4Only && h == IPv6Hint) || (strategy == IPv6Only && h == IPv4Hint) then 0
            else multiset(hints)[h]
  {
    if hints == [] {
    } else {
      KeptHintsExact(strategy, hints[1..], h);
      assert hints == [hints[0]] + hints[1..];
    }
  }

  lemma {:induction false} KeptHintsInOrder(strategy: Strategy, a: seq<Hint>, b: seq<Hint>)
    ensures KeptHints(strategy, a + b) == KeptHints(strategy, a) + KeptHints(strategy, b)
  {
    if a == [] {
      assert a + b == b;
    } else {
      KeptHintsInOrder(strategy, a[1..], b);
      assert (a + b)[1..] == a[1..] + b;
    }
  }

  lemma {:induction false} KeptTwice(strategy: Strategy, hints: seq<Hint>)
    ensures KeptHints(strategy, KeptHints(strategy, hints)) == KeptHints(strategy, hints)
  {
    if hints == [] {
    } else {
      KeptTwice(strategy, hints[1..]);
      var rest := KeptHints(strategy, hints[1..]);
      assert ([hints[0]] + rest)[1..] == rest;
    }
  }

  /** A record that is listed twice is filtered twice, which changes nothing more. */
  lemma FilteredTwice(r: RR, strategy: Strategy)
    ensures Filtered(Filtered(r, strategy), strategy) == Filtered(r, strategy)
  {
    if r.body.HTTPS? {
      KeptTwice(strategy, r.body.hints);
    }
  }

  lemma {:induction false} FilterKeepsNegative(v: seq<RR>, f: seq<RR>, strategy: Strategy)
    requires |f| == |v| && forall i :: 0 <= i < |v| ==> f[i] == v[i] || f[i] == Filtered(v[i], strategy)
    ensures NegativeTTL(f) == NegativeTTL(v)
  {
    if v == [] {
    } else {
      FilterKeepsNegative(v[1..], f[1..], strategy);
    }
  }

  lemma FilterKeepsTTL(v: Value, f: Value, strategy: Strategy, ttl: TTL)
    requires f.rcode == v.rcode && |f.records| == |v.records|
    requires forall i :: 0 <= i < |v.records| ==>
               f.records[i] == v.records[i] || f.records[i] == Filtered(v.records[i], strategy)
    requires IsTimeToLive(ttl, f)
    ensures IsTimeToLive(ttl, v)
  {
    FilterKeepsNegative(v.records, f.records, strategy);
    forall i | 0 <= i < |v.records|
      ensures f.records[i].section == v.records[i].section && f.records[i].ttl == v.records[i].ttl
      ensures f.records[i].rrtype == v.records[i].rrtype && f.records[i] in f.records
    {}
    assert Negative(f) <==> Negative(v) by {
      assert (forall r <- f.records :: !r.section.Answers?) <==>
             forall i :: 0 <= i < |v.records| ==> !f.records[i].section.Answers?;
    }
    if !Negative(v) && ttl > 0 {
      var r :| r in f.records && Counts(r) && r.ttl == ttl;
      var i :| 0 <= i < |f.records| && f.records[i] == r;
      assert v.records[i].ttl == ttl;
    }
  }

  method ApplyResponseOptions(qtype: nat, m: Msg, strategy: Strategy, rewriteTTL: Option<TTL>) returns (ttl: TTL)
    modifies m.records
    ensures Treated(old(View(m)), qtype, strategy, rewriteTTL, ttl, View(m))
  {
    ghost var before := View(m);
    if qtype == TYPE_HTTPS && (strategy == IPv4Only || strategy == IPv6Only) {
      FilterHints(m, strategy);
    }
    ghost var f := View(m);
    assert IsFiltered(before, qtype, strategy, f);
    ttl := ComputeTimeToLive(m);
    FilterKeepsTTL(before, f, strategy, ttl);
    if rewriteTTL.Some? {
      ttl := rewriteTTL.value;
    }
    NormalizeTTL(m, ttl);
  }
}
