/**
 DNS messages as the client handles them.  Records are shared objects whose TTL is
 rewritten in place; `View` is the value a message has at the moment.  The three
 record lists of a message lie one after the other, each record naming its section.
 */
module DnsMessage {
  import opened Wrappers
  import opened DnsRules

  /** uint32 */
  type TTL = x: int | 0 <= x < 0x1_0000_0000

  const TYPE_OPT := 41
  const TYPE_HTTPS := 65
  const RCODE_SUCCESS := 0
  const RCODE_NAME_ERROR := 3

  datatype Section = Answers | Ns | Extra

  datatype Hint = IPv4Hint | IPv6Hint | OtherHint(key: nat)

  datatype Body = SOA(minimum: TTL) | HTTPS(hints: seq<Hint>) | Plain(data: nat)

  /** A record's type field is independent of what it carries. */
  datatype RR = RR(section: Section, rrtype: nat, ttl: TTL, body: Body)

  datatype Value = Value(rcode: nat, records: seq<RR>)

  class Record {
    const section: Section
    const rrtype: nat
    var ttl: TTL
    var body: Body

    constructor (rr: RR)
      ensures Now() == rr
    {
      section, rrtype, ttl, body := rr.section, rr.rrtype, rr.ttl, rr.body;
    }

    function Now(): RR
      reads this
    {
      RR(section, rrtype, ttl, body)
    }
  }

  datatype Msg = Msg(rcode: nat, records: seq<Record>)

  ghost function View(m: Msg): (v: Value)
    reads m.records
    ensures v.rcode == m.rcode && |v.records| == |m.records|
    ensures forall i :: 0 <= i < |m.records| ==> v.records[i] == m.records[i].Now()
  {
    Value(m.rcode, seq(|m.records|, i requires 0 <= i < |m.records| reads m.records => m.records[i].Now()))
  }

  // ------------------------------------------------------------ time to live

  predicate Counts(r: RR) { r.rrtype != TYPE_OPT }

  /** `ttl` is the least positive TTL of the records that count, zero if there is none. */
  ghost predicate LeastPositive(ttl: TTL, records: seq<RR>) {
    && (forall r <- records :: Counts(r) && r.ttl > 0 ==> 0 < ttl <= r.ttl)
    && (ttl > 0 ==> exists r <- records :: Counts(r) && r.ttl == ttl)
  }

  /** The first SOA record of the authority section counts: section 5 of RFC 2308 takes the
      lesser of its TTL and its minimum field. */
  function NegativeTTL(records: seq<RR>): Option<TTL> {
    if records == [] then None
    else
      var r := records[0];
      if r.section.Ns? && r.body.SOA? then Some(if r.ttl < r.body.minimum then r.ttl else r.body.minimum)
      else NegativeTTL(records[1..])
  }

  /** Record `i` is the first SOA record of the authority section. */
  predicate FirstSOA(records: seq<RR>, i: nat) {
    && i < |records| && records[i].section == Ns && records[i].body.SOA?
    && forall j :: 0 <= j < i ==> !(records[j].section == Ns && records[j].body.SOA?)
  }

  lemma {:induction false} NegativeTTLIs(records: seq<RR>)
    ensures forall i: nat :: FirstSOA(records, i) ==>
              && NegativeTTL(records).Some?
              && var ttl := NegativeTTL(records).value;
                 && ttl <= records[i].ttl && ttl <= records[i].body.minimum
                 && (ttl == records[i].ttl || ttl == records[i].body.minimum)
    ensures (forall i :: 0 <= i < |records| ==> !(records[i].section == Ns && records[i].body.SOA?)) ==>
              NegativeTTL(records).None?
  {
    if records == [] {
    } else {
      NegativeTTLIs(records[1..]);
      forall i: nat | FirstSOA(records, i) && i > 0 ensures FirstSOA(records[1..], i - 1) {
        assert forall j :: 0 <= j < i - 1 ==> records[1..][j] == records[j + 1];
      }
    }
  }

  predicate Negative(v: Value) {
    (forall r <- v.records :: !r.section.Answers?) && NegativeTTL(v.records).Some?
  }

  ghost predicate IsTimeToLive(ttl: TTL, v: Value) {
    if Negative(v) then ttl == NegativeTTL(v.records).value else LeastPositive(ttl, v.records)
  }

  method ExtractNegativeTTL(m: Msg) returns (ttl: TTL, hasSOA: bool)
    ensures NegativeTTL(View(m).records) == if hasSOA then Some(ttl) else None
  {
    ghost var vs := View(m).records;
    assert vs[0..] == vs;
    for i := 0 to |m.records|
      invariant NegativeTTL(vs) == NegativeTTL(vs[i..])
    {
      var r := m.records[i];
      assert vs[i..][0] == r.Now() && vs[i..][1..] == vs[i + 1..];
      if r.section.Ns? && r.body.SOA? {
        var soaTTL, soaMinimum := r.ttl, r.body.minimum;
        if soaTTL < soaMinimum {
          return soaTTL, true;
        }
        return soaMinimum, true;
      }
    }
    return 0, false;
  }

  method HasAnswer(m: Msg) returns (found: bool)
    ensures found <==> exists r <- View(m).records :: r.section.Answers?
  {
    for i := 0 to |m.records|
      invariant forall k :: 0 <= k < i ==> !View(m).records[k].section.Answers?
    {
      if m.records[i].section.Answers? {
        assert View(m).records[i].section.Answers?;
        return true;
      }
    }
    return false;
  }

  method ComputeTimeToLive(m: Msg) returns (ttl: TTL)
    ensures IsTimeToLive(ttl, View(m))
  {
    var answered := HasAnswer(m);
    if !answered {
      var soaTTL, hasSOA := ExtractNegativeTTL(m);
      if hasSOA {
        return soaTTL;
      }
    }
    ttl := ScanTTL(m);
  }

  /** The nested loops of computeTimeToLive. */
  method ScanTTL(m: Msg) returns (ttl: TTL)
    ensures LeastPositive(ttl, View(m).records)
  {
    ghost var vs := View(m).records;
    ttl := 0;
    for i := 0 to |m.records|
      invariant LeastPositive(ttl, vs[..i])
    {
      var r := m.records[i];
      assert vs[..i + 1] == vs[..i] + [r.Now()];
      if r.rrtype != TYPE_OPT && (ttl == 0 || (r.ttl > 0 && r.ttl < ttl)) {
        ttl := r.ttl;
        assert r.Now() in vs[..i] + [r.Now()];
      } else if ttl > 0 {
        ghost var w :| w in vs[..i] && Counts(w) && w.ttl == ttl;
        assert w in vs[..i] + [r.Now()];
      }
    }
    assert vs[..|vs|] == vs;
  }

  lemma TimeToLiveUnique(a: TTL, b: TTL, v: Value)
    requires IsTimeToLive(a, v) && IsTimeToLive(b, v)
    ensures a == b
  {
  }

  /** Section 5 of RFC 2308 decides only for a message without answers that has an SOA record; for any
      other the least positive TTL does, OPT records aside. */
  lemma TimeToLiveIs(ttl: TTL, v: Value)
    requires IsTimeToLive(ttl, v)
    ensures forall i: nat :: FirstSOA(v.records, i) && (forall r <- v.records :: r.section != Answers) ==>
              && ttl <= v.records[i].ttl && ttl <= v.records[i].body.minimum
              && (ttl == v.records[i].ttl || ttl == v.records[i].body.minimum)
    ensures || (exists r <- v.records :: r.section == Answers)
            || (forall i :: 0 <= i < |v.records| ==> !(v.records[i].section == Ns && v.records[i].body.SOA?)) ==>
              && (forall r <- v.records :: r.rrtype != 41 && r.ttl > 0 ==> 0 < ttl <= r.ttl)
              && (ttl > 0 ==> exists r <- v.records :: r.rrtype != 41 && r.ttl == ttl)
  {
    NegativeTTLIs(v.records);
  }

  // ---------------------------------------------------------------- normalizing

  function Retimed(r: RR, ttl: TTL): RR {
    if Counts(r) then r.(ttl := ttl) else r
  }

  function Normalized(v: Value, ttl: TTL): (n: Value)
    ensures n.rcode == v.rcode && |n.records| == |v.records|
    ensures forall i :: 0 <= i < |v.records| ==> n.records[i] == Retimed(v.records[i], ttl)
  {
    Value(v.rcode, seq(|v.records|, i requires 0 <= i < |v.records| => Retimed(v.records[i], ttl)))
  }

  /** Rewrites the records in place; a record that occurs twice is simply written twice. */
  method NormalizeTTL(m: Msg, ttl: TTL)
    modifies m.records
    ensures View(m) == Normalized(old(View(m)), ttl)
    ensures forall r <- m.records :: r.ttl == (if r.rrtype == 41 then old(r.ttl) else ttl) && r.body == old(r.body)
  {
    for i := 0 to |m.records|
      invariant forall k :: 0 <= k < i ==> m.records[k].Now() == Retimed(old(m.records[k].Now()), ttl)
      invariant forall r <- m.records :: r.Now() == old(r.Now()) || r.Now() == Retimed(old(r.Now()), ttl)
    {
      if m.records[i].rrtype != TYPE_OPT {
        m.records[i].ttl := ttl;
      }
    }
    assert View(m).records == Normalized(old(View(m)), ttl).records;
  }

  lemma {:induction false} NegativeRetimed(before: seq<RR>, after: seq<RR>, ttl: TTL)
    requires |after| == |before| && forall i :: 0 <= i < |before| ==> after[i] == Retimed(before[i], ttl)
    ensures NegativeTTL(after).Some? <==> NegativeTTL(before).Some?
    ensures NegativeTTL(before) == Some(ttl) ==> NegativeTTL(after) == Some(ttl)
  {
    if before == [] {
    } else {
      NegativeRetimed(before[1..], after[1..], ttl);
    }
  }

  lemma LeastPositiveRetimed(before: seq<RR>, after: seq<RR>, ttl: TTL)
    requires LeastPositive(ttl, before) && |after| == |before|
    requires forall i :: 0 <= i < |before| ==> after[i] == Retimed(before[i], ttl)
    ensures LeastPositive(ttl, after)
  {
    if ttl > 0 {
      var r :| r in before && Counts(r) && r.ttl == ttl;
      var i :| 0 <= i < |before| && before[i] == r;
      assert after[i] == r;
    }
  }

  lemma SectionsKept(v: Value, ttl: TTL)
    ensures (forall r <- Normalized(v, ttl).records :: !r.section.Answers?) <==>
            (forall r <- v.records :: !r.section.Answers?)
  {
    var n := Normalized(v, ttl);
    forall i | 0 <= i < |v.records| ensures n.records[i].section == v.records[i].section {}
    assert (forall r <- n.records :: !r.section.Answers?) <==>
           forall i :: 0 <= i < |v.records| ==> !n.records[i].section.Answers?;
    assert (forall r <- v.records :: !r.section.Answers?) <==>
           forall i :: 0 <= i < |v.records| ==> !v.records[i].section.Answers?;
  }

  /** Computing the TTL again after writing it everywhere gives the same TTL. */
  lemma TimeToLiveFixedPoint(v: Value, ttl: TTL)
    requires IsTimeToLive(ttl, v)
    ensures IsTimeToLive(ttl, Normalized(v, ttl))
  {
    var n := Normalized(v, ttl);
    NegativeRetimed(v.records, n.records, ttl);
    SectionsKept(v, ttl);
    if !Negative(v) {
      LeastPositiveRetimed(v.records, n.records, ttl);
    }
  }

  // -------------------------------------------------------------------- copying

  /** A copy shares no record with anything that existed before. */
  method Copy(m: Msg) returns (c: Msg)
    ensures fresh(c.records) && View(c) == View(m)
  {
    var copies: seq<Record> := [];
    for i := 0 to |m.records|
      invariant |copies| == i && fresh(copies)
      invariant forall k :: 0 <= k < i ==> copies[k].Now() == m.records[k].Now()
    {
      var copy := new Record(m.records[i].Now());
      copies := copies + [copy];
    }
    c := Msg(m.rcode, copies);
    assert View(c).records == View(m).records;
  }
}
