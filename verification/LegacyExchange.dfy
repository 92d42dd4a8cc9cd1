/**
 The legacy DNS rule interpreter: matchDNS finds the next candidate rule, and the
 loops of Exchange and Lookup resume it after every rejected or failed answer.
 Matching, transports and answers are an arbitrary environment.
 */
module LegacyExchange {
  import opened Wrappers
  import opened DnsRules
  import opened TransportGraph
  import opened RuleExchange

  datatype LegacyRule = LegacyRule(action: Action, addressLimit: bool)

  datatype Setting = Setting(
    rules: seq<LegacyRule>,
    preMatch: nat -> bool,
    transports: map<string, Transport>,
    defaultTransport: Transport,
    defaultStrategy: Strategy,
    allowFakeIP: bool,
    addressQuery: bool,
    options: QueryOptions)

  /** `rule` is the number of rules when none is left and the default server is meant. */
  datatype Candidacy = Candidacy(transport: Option<Transport>, rule: nat, options: QueryOptions)

  predicate Applies(c: Setting, k: nat)
    requires k < |c.rules|
  {
    (c.rules[k].addressLimit ==> c.addressQuery) && c.preMatch(k)
  }

  predicate Usable(c: Setting, server: string) {
    server in c.transports && (c.transports[server].kind == FakeIP ==> c.allowFakeIP)
  }

  /** Rule `k` has to stop the search of matchDNS: it matches a query of the right kind, and rejects,
      answers itself, or routes to a known server, which may be a FakeIP server only if allowed. */
  predicate Candidate(c: Setting, k: nat)
    requires k < |c.rules|
  {
    var a := c.rules[k].action;
    && c.preMatch(k)
    && (!c.rules[k].addressLimit || c.addressQuery)
    && (|| a.Reject? || a.Predefined?
        || (a.Route? && a.server in c.transports && (c.transports[a.server].kind != FakeIP || c.allowFakeIP)))
  }

  /** `all` selects the reference that honours every option. */
  function ApplyLegacy(all: bool, o: QueryOptions, r: RouteOptions): QueryOptions {
    QueryOptions(
      if r.strategy != AsIS then r.strategy else o.strategy,
      o.disableCache || r.disableCache,
      o.disableOptimisticCache || (all && r.disableOptimisticCache),
      if r.rewriteTTL.Some? then r.rewriteTTL else o.rewriteTTL,
      if r.clientSubnet.Some? then r.clientSubnet else o.clientSubnet)
  }

  function RouteLegacy(all: bool, o: QueryOptions, r: RouteOptions, t: Transport): QueryOptions {
    var applied := ApplyLegacy(all, o, r);
    if t.kind == FakeIP then applied.(disableCache := true) else applied
  }

  /** The search of matchDNS from rule `i` on.  The reference also stops at evaluate and respond. */
  function MatchFrom(all: bool, c: Setting, i: nat, o: QueryOptions): (m: Candidacy)
    requires i <= |c.rules|
    ensures i <= m.rule <= |c.rules|
    decreases |c.rules| - i
  {
    if i == |c.rules| then Candidacy(Some(c.defaultTransport), i, o)
    else if !Applies(c, i) then MatchFrom(all, c, i + 1, o)
    else
      match c.rules[i].action
      case Route(server, r, _) =>
        if !Usable(c, server) then MatchFrom(all, c, i + 1, o)
        else Candidacy(Some(c.transports[server]), i, RouteLegacy(all, o, r, c.transports[server]))
      case SetOptions(r) => MatchFrom(all, c, i + 1, ApplyLegacy(all, o, r))
      case Reject(_) => Candidacy(None, i, o)
      case Predefined(_, _, _) => Candidacy(None, i, o)
      case Unset(_, _) => MatchFrom(all, c, i + 1, o)
      case _ => if all then Candidacy(None, i, o) else MatchFrom(all, c, i + 1, o)
  }

  method MatchDNS(c: Setting, ruleIndex: int) returns (transport: Option<Transport>, index: int, options: QueryOptions)
    requires -1 <= ruleIndex < |c.rules|
    ensures var m := MatchFrom(false, c, ruleIndex + 1, c.options);
            && transport == m.transport && options == m.options
            && index == (if m.rule < |c.rules| then m.rule else -1)
    ensures index == -1 || ruleIndex < index < |c.rules|
  {
    options := c.options;
    var i := 0;
    if ruleIndex != -1 {
      i := ruleIndex + 1;
    }
    while i < |c.rules|
      invariant ruleIndex + 1 <= i <= |c.rules|
      invariant MatchFrom(false, c, ruleIndex + 1, c.options) == MatchFrom(false, c, i, options)
    {
      var rule := c.rules[i];
      if (rule.addressLimit && !c.addressQuery) || !c.preMatch(i) {
        i := i + 1;
        continue;
      }
      match rule.action {
        case Route(server, r, _) =>
          if server in c.transports {
            var t := c.transports[server];
            if !(t.kind == FakeIP && !c.allowFakeIP) {
              options := ApplyLegacy(false, options, r);
              if t.kind == FakeIP {
                options := options.(disableCache := true);
              }
              return Some(t), i, options;
            }
          }
        case SetOptions(r) => options := ApplyLegacy(false, options, r);
        case Reject(_) => return None, i, options;
        case Predefined(_, _, _) => return None, i, options;
        case _ =>
      }
      i := i + 1;
    }
    return Some(c.defaultTransport), -1, options;
  }

  // ------------------------------------------------------ nothing is overlooked

  predicate PlainAction(a: Action) {
    !a.Evaluate? && !a.Respond? && !ActionDisablesLegacy(a)
  }

  lemma {:induction false} MatchOverlooksNothing(c: Setting, i: nat, o: QueryOptions)
    requires i <= |c.rules| && forall k :: 0 <= k < |c.rules| ==> PlainAction(c.rules[k].action)
    ensures MatchFrom(true, c, i, o) == MatchFrom(false, c, i, o)
    decreases |c.rules| - i
  {
    if i < |c.rules| {
      assert PlainAction(c.rules[i].action);
      MatchOverlooksNothing(c, i + 1, o);
      if c.rules[i].action.SetOptions? {
        MatchOverlooksNothing(c, i + 1, ApplyLegacy(false, o, c.rules[i].action.options));
      }
    }
  }

  ghost predicate BuiltFrom(rules: seq<Rule>, built: seq<LegacyRule>) {
    && |built| == |rules|
    && forall i :: 0 <= i < |rules| ==> !rules[i].Unknown? && built[i].action == ActionOf(rules[i])
  }

  /** For rules the analysis sends to this interpreter, having no case for evaluate, respond and
      disable_optimistic_cache changes no search. */
  lemma LegacyMatchIsSound(known: RuleSets, rules: seq<Rule>, c: Setting, i: nat, o: QueryOptions)
    requires BuiltFrom(rules, c.rules) && i <= |c.rules|
    requires ResolveKnown(known, rules).Ok? && ResolveKnown(known, rules).value.legacy
    ensures MatchFrom(true, c, i, o) == MatchFrom(false, c, i, o)
  {
    LegacyModeUsesNothingNew(known, rules);
    forall k | 0 <= k < |c.rules| ensures PlainAction(c.rules[k].action) {
      assert rules[k] in rules;
      assert !Somewhere(rules[k], n => UsesNewFeature(n, known));
      assert !UsesNewFeature(rules[k], known);
    }
    MatchOverlooksNothing(c, i, o);
  }

  // --------------------------------------------------------------- the retry loop

  datatype Decision<R> =
    | Stopped(rule: nat)              // a reject or predefined rule
    | Asked(rule: nat, reply: R)      // a route rule, or the default server

  function Strategic(c: Setting, o: QueryOptions): QueryOptions {
    if o.strategy == AsIS then o.(strategy := c.defaultStrategy) else o
  }

  /** Resume the search after each reply that is to be tried again. */
  function Walk<R>(c: Setting, ask: (nat, Transport, QueryOptions) -> R, again: (nat, R) -> bool, i: nat)
    : Decision<R>
    requires i <= |c.rules|
    decreases |c.rules| - i
  {
    var m := MatchFrom(false, c, i, c.options);
    if m.transport.None? then Stopped(m.rule)
    else
      var reply := ask(m.rule, m.transport.value, Strategic(c, m.options));
      if m.rule < |c.rules| && again(m.rule, reply) then Walk(c, ask, again, m.rule + 1)
      else Asked(m.rule, reply)
  }

  /** One exchange with a server: on behalf of which rule, with whom, and how. */
  datatype Query = Query(rule: nat, transport: Transport, options: QueryOptions)

  /** The exchanges the same search makes, in order. */
  function AskedFrom<R>(c: Setting, ask: (nat, Transport, QueryOptions) -> R, again: (nat, R) -> bool, i: nat)
    : seq<Query>
    requires i <= |c.rules|
    decreases |c.rules| - i
  {
    var m := MatchFrom(false, c, i, c.options);
    if m.transport.None? then []
    else
      var q := Query(m.rule, m.transport.value, Strategic(c, m.options));
      if m.rule < |c.rules| && again(m.rule, ask(q.rule, q.transport, q.options)) then
        [q] + AskedFrom(c, ask, again, m.rule + 1)
      else [q]
  }

  /** A candidate without a transport is a reject or predefined rule, and conversely. */
  lemma {:induction false} StopsAtFinal(c: Setting, i: nat, o: QueryOptions)
    requires i <= |c.rules|
    ensures var m := MatchFrom(false, c, i, o);
            m.transport.None? <==>
              m.rule < |c.rules| && (c.rules[m.rule].action.Reject? || c.rules[m.rule].action.Predefined?)
    decreases |c.rules| - i
  {
    if i < |c.rules| {
      StopsAtFinal(c, i + 1, o);
      if c.rules[i].action.SetOptions? {
        StopsAtFinal(c, i + 1, ApplyLegacy(false, o, c.rules[i].action.options));
      }
    }
  }

  /** The head of a round of the retry loops: the next search, with the default strategy filled in.
      What it finds tells how the walk and its log go on from here. */
  method NextQuery<R>(c: Setting, ruleIndex: int, ghost ask: (nat, Transport, QueryOptions) -> R,
                      ghost again: (nat, R) -> bool) returns (query: Option<Query>, index: int)
    requires -1 <= ruleIndex < |c.rules|
    ensures index == -1 || ruleIndex < index < |c.rules|
    ensures query.None? <==> index != -1 && (c.rules[index].action.Reject? || c.rules[index].action.Predefined?)
    ensures query.None? ==>
              && Walk(c, ask, again, ruleIndex + 1) == Stopped(index)
              && AskedFrom(c, ask, again, ruleIndex + 1) == []
    ensures query.Some? ==>
              var q := query.value;
              var reply := ask(q.rule, q.transport, q.options);
              && q.rule == (if index == -1 then |c.rules| else index)
              && if index != -1 && again(index, reply) then
                   && Walk(c, ask, again, ruleIndex + 1) == Walk(c, ask, again, index + 1)
                   && AskedFrom(c, ask, again, ruleIndex + 1) == [q] + AskedFrom(c, ask, again, index + 1)
                 else
                   && Walk(c, ask, again, ruleIndex + 1) == Asked(q.rule, reply)
                   && AskedFrom(c, ask, again, ruleIndex + 1) == [q]
  {
    var transport, found, dnsOptions := MatchDNS(c, ruleIndex);
    StopsAtFinal(c, ruleIndex + 1, c.options);
    index := found;
    if transport.None? {
      return None, index;
    }
    if dnsOptions.strategy == AsIS {
      dnsOptions := dnsOptions.(strategy := c.defaultStrategy);
    }
    query := Some(Query(if index == -1 then |c.rules| else index, transport.value, dnsOptions));
  }

  lemma LogGrows(asked: seq<Query>, q: Query, rest: seq<Query>)
    ensures asked + ([q] + rest) == asked + [q] + rest
  {
  }

  datatype Reply = Answer(message: Message) | Rejected | Failed(error: ExchangeError)

  predicate BypassIfFailed(c: Setting, k: nat)
    requires k < |c.rules|
  {
    c.rules[k].action.Route? && c.rules[k].action.bypassIfFailed
  }

  /** When Exchange goes on to the next rule. */
  predicate ExchangeAgain(c: Setting, canceled: nat -> bool, k: nat, reply: Reply) {
    k < |c.rules| &&
    (|| (c.rules[k].addressLimit && reply.Rejected?)
     || (!reply.Answer? && BypassIfFailed(c, k) && !canceled(k)))
  }

  function RetryExchange(c: Setting, canceled: nat -> bool): (nat, Reply) -> bool {
    (k: nat, reply) => ExchangeAgain(c, canceled, k, reply)
  }

  datatype ExchangeResult = Refusal | Drop | Given(fixed: Message) | Replied(reply: Reply)

  function ExchangeResultOf(c: Setting, d: Decision<Reply>): ExchangeResult {
    match d
    case Asked(_, reply) => Replied(reply)
    case Stopped(k) =>
      if k < |c.rules| && c.rules[k].action.Predefined? then Given(c.rules[k].action.answer)
      else if k < |c.rules| && c.rules[k].action.Reject? && c.rules[k].action.drop then Drop
      else Refusal
  }

  /** The legacy branch of Router.Exchange.  `asked` logs every call of `ask`. */
  method Exchange(c: Setting, ask: (nat, Transport, QueryOptions) -> Reply, canceled: nat -> bool)
    returns (result: ExchangeResult, asked: seq<Query>)
    ensures result == ExchangeResultOf(c, Walk(c, ask, RetryExchange(c, canceled), 0))
    ensures asked == AskedFrom(c, ask, RetryExchange(c, canceled), 0)
  {
    ghost var again := RetryExchange(c, canceled);
    ghost var decision, log := Walk(c, ask, again, 0), AskedFrom(c, ask, again, 0);
    var ruleIndex := -1;
    asked := [];
    while true
      invariant -1 <= ruleIndex < |c.rules|
      invariant decision == Walk(c, ask, again, ruleIndex + 1)
      invariant log == asked + AskedFrom(c, ask, again, ruleIndex + 1)
      decreases |c.rules| - ruleIndex
    {
      var query, index := NextQuery(c, ruleIndex, ask, again);
      if index != -1 && c.rules[index].action.Reject? {
        result := if c.rules[index].action.drop then Drop else Refusal;
        break;
      }
      if index != -1 && c.rules[index].action.Predefined? {
        result := Given(c.rules[index].action.answer);
        break;
      }
      var q := query.value;
      LogGrows(asked, q, if index == -1 then [] else AskedFrom(c, ask, again, index + 1));
      asked := asked + [q];
      var reply := ask(q.rule, q.transport, q.options);
      var responseCheck := index != -1 && c.rules[index].addressLimit;
      var rejected, bypass := false, false;
      if !reply.Answer? {
        rejected := reply.Rejected?;
        if index != -1 && BypassIfFailed(c, index) && !canceled(index) {
          bypass := true;
        }
      }
      if (responseCheck && rejected) || bypass {
        ruleIndex := index;
        continue;
      }
      result := Replied(reply);
      break;
    }
  }

  datatype LookupReply = LookupReply(addresses: seq<Address>, error: Option<ExchangeError>)

  /** When Lookup goes on to the next rule: any error counts as a rejection under an address limit. */
  predicate LookupAgain(c: Setting, k: nat, reply: LookupReply) {
    k < |c.rules| &&
    (|| (reply.addresses == [] && BypassIfFailed(c, k))
     || (c.rules[k].addressLimit && reply.error.Some?))
  }

  function RetryLookup(c: Setting): (nat, LookupReply) -> bool {
    (k: nat, reply) => LookupAgain(c, k, reply)
  }

  datatype LookupResult =
    | Denied
    | Coded(rcode: nat)
    | Addresses(addresses: seq<Address>)
    | EmptyResult
    | LookupFailed(error: ExchangeError)

  /** printResult turns an empty success into an error. */
  function Conclude(reply: LookupReply): LookupResult {
    if reply.error.Some? then LookupFailed(reply.error.value)
    else if reply.addresses == [] then EmptyResult
    else Addresses(reply.addresses)
  }

  function LookupResultOf(c: Setting, d: Decision<LookupReply>): LookupResult {
    match d
    case Asked(_, reply) => Conclude(reply)
    case Stopped(k) =>
      if k < |c.rules| && c.rules[k].action.Predefined? then
        var a := c.rules[k].action;
        if a.rcode != 0 then Coded(a.rcode) else Conclude(LookupReply(a.addresses, None))
      else Denied
  }

  /** The legacy branch of Router.Lookup. */
  method Lookup(c: Setting, ask: (nat, Transport, QueryOptions) -> LookupReply)
    returns (result: LookupResult, asked: seq<Query>)
    ensures result == LookupResultOf(c, Walk(c, ask, RetryLookup(c), 0))
    ensures asked == AskedFrom(c, ask, RetryLookup(c), 0)
  {
    ghost var again := RetryLookup(c);
    ghost var decision, log := Walk(c, ask, again, 0), AskedFrom(c, ask, again, 0);
    var ruleIndex := -1;
    asked := [];
    while true
      invariant -1 <= ruleIndex < |c.rules|
      invariant decision == Walk(c, ask, again, ruleIndex + 1)
      invariant log == asked + AskedFrom(c, ask, again, ruleIndex + 1)
      decreases |c.rules| - ruleIndex
    {
      var query, index := NextQuery(c, ruleIndex, ask, again);
      if index != -1 && c.rules[index].action.Reject? {
        result := Denied;
        break;
      }
      if index != -1 && c.rules[index].action.Predefined? {
        var a := c.rules[index].action;
        if a.rcode != 0 {
          result := Coded(a.rcode);
        } else {
          result := Conclude(LookupReply(a.addresses, None));
        }
        break;
      }
      var q := query.value;
      LogGrows(asked, q, if index == -1 then [] else AskedFrom(c, ask, again, index + 1));
      asked := asked + [q];
      var reply := ask(q.rule, q.transport, q.options);
      if index != -1 && |reply.addresses| == 0 && BypassIfFailed(c, index) {
        ruleIndex := index;
        continue;
      }
      var responseCheck := index != -1 && c.rules[index].addressLimit;
      if !responseCheck || reply.error.None? {
        result := Conclude(reply);
        break;
      }
      ruleIndex := index;
    }
  }

  // ------------------------------------------------------- first acceptable rule

  /** The first rule after the last candidate before `k`: where a search that gets to `k` started. */
  function SearchStart(c: Setting, k: nat): (i: nat)
    requires k <= |c.rules|
    ensures i <= k
  {
    if k == 0 then 0
    else if Candidate(c, k - 1) then k
    else SearchStart(c, k - 1)
  }

  /** The options gathered by the route-options rules that apply from `start` up to `k`. */
  function Gathered(c: Setting, start: nat, k: nat): QueryOptions
    requires start <= k <= |c.rules|
    decreases k - start
  {
    if k == start then c.options
    else
      var o := Gathered(c, start, k - 1);
      if Applies(c, k - 1) && c.rules[k - 1].action.SetOptions? then
        ApplyLegacy(false, o, c.rules[k - 1].action.options)
      else o
  }

  /** The server and the options rule `k` is tried with. */
  function TransportAt(c: Setting, k: nat): Option<Transport>
    requires k <= |c.rules|
  {
    if k == |c.rules| then Some(c.defaultTransport)
    else
      var a := c.rules[k].action;
      if a.Route? && a.server in c.transports then Some(c.transports[a.server]) else None
  }

  function OptionsAt(c: Setting, k: nat): QueryOptions
    requires k <= |c.rules|
  {
    var o := Gathered(c, SearchStart(c, k), k);
    if k < |c.rules| && c.rules[k].action.Route? && TransportAt(c, k).Some? then
      RouteLegacy(false, o, c.rules[k].action.options, TransportAt(c, k).value)
    else o
  }

  function ReplyAt<R>(c: Setting, ask: (nat, Transport, QueryOptions) -> R, k: nat): R
    requires k <= |c.rules| && TransportAt(c, k).Some?
  {
    ask(k, TransportAt(c, k).value, Strategic(c, OptionsAt(c, k)))
  }

  /** Candidate `k` was asked and its reply rejected or bypassed. */
  predicate PassedOver<R>(c: Setting, ask: (nat, Transport, QueryOptions) -> R, again: (nat, R) -> bool, k: nat)
    requires k < |c.rules|
  {
    TransportAt(c, k).Some? && again(k, ReplyAt(c, ask, k))
  }

  /** The reference: rule `k`, or the default server, settles the query because it is a candidate
      that is not passed over and every earlier candidate is. */
  ghost predicate Settles<R>(c: Setting, ask: (nat, Transport, QueryOptions) -> R, again: (nat, R) -> bool, k: nat) {
    && k <= |c.rules|
    && (k < |c.rules| ==> Candidate(c, k) && !PassedOver(c, ask, again, k))
    && (forall j :: 0 <= j < k && Candidate(c, j) ==> PassedOver(c, ask, again, j))
  }

  /** A search that started at `start` finds the next candidate with the options it gathered. */
  lemma {:induction false} MatchIsNext(c: Setting, start: nat, i: nat)
    requires start <= i <= |c.rules| && SearchStart(c, i) == start
    ensures var m := MatchFrom(false, c, i, Gathered(c, start, i));
            && (forall j :: i <= j < m.rule ==> !Candidate(c, j))
            && (m.rule < |c.rules| ==> Candidate(c, m.rule))
            && m.transport == TransportAt(c, m.rule)
            && m.options == OptionsAt(c, m.rule)
    decreases |c.rules| - i
  {
    if i < |c.rules| && !Candidate(c, i) {
      assert SearchStart(c, i + 1) == start;
      MatchIsNext(c, start, i + 1);
    }
  }

  lemma {:induction false} WalkSettles<R>(c: Setting, ask: (nat, Transport, QueryOptions) -> R,
                                          again: (nat, R) -> bool, i: nat)
    requires i <= |c.rules| && (i == 0 || Candidate(c, i - 1))
    requires forall j :: 0 <= j < i && Candidate(c, j) ==> PassedOver(c, ask, again, j)
    ensures var d := Walk(c, ask, again, i);
            && Settles(c, ask, again, d.rule)
            && (d.Asked? <==> TransportAt(c, d.rule).Some?)
            && (d.Asked? ==> d.reply == ReplyAt(c, ask, d.rule))
    decreases |c.rules| - i
  {
    assert SearchStart(c, i) == i;
    MatchIsNext(c, i, i);
    var m := MatchFrom(false, c, i, c.options);
    if m.transport.Some? && m.rule < |c.rules| && again(m.rule, ReplyAt(c, ask, m.rule)) {
      WalkSettles(c, ask, again, m.rule + 1);
    }
  }

  lemma SettlesUnique<R>(c: Setting, ask: (nat, Transport, QueryOptions) -> R, again: (nat, R) -> bool, j: nat, k: nat)
    requires Settles(c, ask, again, j) && Settles(c, ask, again, k)
    ensures j == k
  {
  }

  /** The retry loop answers with the first acceptable candidate.  In particular the default server
      is asked only when every candidate was asked and passed over. */
  lemma FirstAcceptable<R>(c: Setting, ask: (nat, Transport, QueryOptions) -> R, again: (nat, R) -> bool, k: nat)
    requires Settles(c, ask, again, k)
    ensures Walk(c, ask, again, 0) ==
            if TransportAt(c, k).Some? then Asked(k, ReplyAt(c, ask, k)) else Stopped(k)
  {
    WalkSettles(c, ask, again, 0);
    SettlesUnique(c, ask, again, k, Walk(c, ask, again, 0).rule);
  }

  /** The exchanges go up the rule list, so there is at most one per rule and one for the default server. */
  lemma {:induction false} AskedIsIncreasing<R>(c: Setting, ask: (nat, Transport, QueryOptions) -> R,
                                                again: (nat, R) -> bool, i: nat)
    requires i <= |c.rules|
    ensures var asked := AskedFrom(c, ask, again, i);
            && |asked| <= |c.rules| + 1 - i
            && (forall j :: 0 <= j < |asked| ==> i <= asked[j].rule <= |c.rules|)
            && (forall j, k :: 0 <= j < k < |asked| ==> asked[j].rule < asked[k].rule)
    decreases |c.rules| - i
  {
    var m := MatchFrom(false, c, i, c.options);
    if m.rule < |c.rules| {
      AskedIsIncreasing(c, ask, again, m.rule + 1);
    }
  }

  /** What asking on behalf of rule `k`, or of the default server, looks like. */
  function QueryAt(c: Setting, k: nat): Query
    requires k <= |c.rules| && TransportAt(c, k).Some?
  {
    Query(k, TransportAt(c, k).value, Strategic(c, OptionsAt(c, k)))
  }

  /** Rule `k` is asked: it is a candidate with a server, or stands for the default server, and the
      search gets to it. */
  ghost predicate IsAsked(c: Setting, from: nat, last: nat, k: nat) {
    from <= k <= last <= |c.rules| && (k < |c.rules| ==> Candidate(c, k)) && TransportAt(c, k).Some?
  }

  lemma {:induction false} WalkGoesOn<R>(c: Setting, ask: (nat, Transport, QueryOptions) -> R,
                                         again: (nat, R) -> bool, i: nat)
    requires i <= |c.rules|
    ensures i <= Walk(c, ask, again, i).rule <= |c.rules|
    decreases |c.rules| - i
  {
    var m := MatchFrom(false, c, i, c.options);
    if m.rule < |c.rules| {
      WalkGoesOn(c, ask, again, m.rule + 1);
    }
  }

  lemma {:induction false} AskedExactly<R>(c: Setting, ask: (nat, Transport, QueryOptions) -> R,
                                           again: (nat, R) -> bool, i: nat, q: Query)
    requires i <= |c.rules| && (i == 0 || Candidate(c, i - 1))
    ensures q in AskedFrom(c, ask, again, i) <==>
            IsAsked(c, i, Walk(c, ask, again, i).rule, q.rule) && q == QueryAt(c, q.rule)
    decreases |c.rules| - i
  {
    assert SearchStart(c, i) == i;
    MatchIsNext(c, i, i);
    var m := MatchFrom(false, c, i, c.options);
    if m.transport.Some? {
      assert QueryAt(c, m.rule) == Query(m.rule, m.transport.value, Strategic(c, m.options));
      if m.rule < |c.rules| && again(m.rule, ReplyAt(c, ask, m.rule)) {
        AskedExactly(c, ask, again, m.rule + 1, q);
        WalkGoesOn(c, ask, again, m.rule + 1);
      }
    }
  }

  /** The whole log of a query: up to the rule that settles it, every candidate with a server is asked
      once, in order, with its own server and options, and nobody else is. */
  lemma AskedInOrder<R>(c: Setting, ask: (nat, Transport, QueryOptions) -> R, again: (nat, R) -> bool)
    ensures var asked, last := AskedFrom(c, ask, again, 0), Walk(c, ask, again, 0).rule;
            && Settles(c, ask, again, last)
            && |asked| <= |c.rules| + 1
            && (forall j, k :: 0 <= j < k < |asked| ==> asked[j].rule < asked[k].rule)
            && (forall q :: q in asked <==> IsAsked(c, 0, last, q.rule) && q == QueryAt(c, q.rule))
  {
    var last := Walk(c, ask, again, 0).rule;
    AskedIsIncreasing(c, ask, again, 0);
    WalkSettles(c, ask, again, 0);
    forall q ensures q in AskedFrom(c, ask, again, 0) <==> IsAsked(c, 0, last, q.rule) && q == QueryAt(c, q.rule) {
      AskedExactly(c, ask, again, 0, q);
    }
  }

  // ------------------------------------------------------- the options of a query

  /** Route-options rule `j` matches a query of the right kind. */
  predicate Prepares(c: Setting, j: nat)
    requires j < |c.rules|
  {
    c.preMatch(j) && (!c.rules[j].addressLimit || c.addressQuery) && c.rules[j].action.SetOptions?
  }

  /** A search that gets to rule `k` started after the last candidate before it. */
  lemma {:induction false} SearchStartIs(c: Setting, k: nat)
    requires k <= |c.rules|
    ensures var start := SearchStart(c, k);
            && (start > 0 ==> Candidate(c, start - 1))
            && forall j :: start <= j < k ==> !Candidate(c, j)
  {
    if k == 0 {
    } else {
      SearchStartIs(c, k - 1);
    }
  }

  /** Of the route-options rules since the search started, any one turns the cache off; the optimistic
      cache is none of their business. */
  lemma {:induction false} SwitchesGathered(c: Setting, start: nat, k: nat)
    requires start <= k <= |c.rules|
    ensures var o := Gathered(c, start, k);
            && (o.disableCache <==>
                  || c.options.disableCache
                  || exists j :: start <= j < k && Prepares(c, j) && c.rules[j].action.options.disableCache)
            && o.disableOptimisticCache == c.options.disableOptimisticCache
    decreases k - start
  {
    if k == start {
    } else {
      SwitchesGathered(c, start, k - 1);
      assert Prepares(c, k - 1) || !Prepares(c, k - 1);
    }
  }

  /** The last that sets a strategy, a TTL or a client subnet decides it. */
  ghost predicate LastStrategy(c: Setting, start: nat, j: nat, k: nat)
    requires k <= |c.rules|
  {
    && start <= j < k && Prepares(c, j) && c.rules[j].action.options.strategy != AsIS
    && forall m :: j < m < k && Prepares(c, m) ==> c.rules[m].action.options.strategy == AsIS
  }

  ghost predicate LastTTL(c: Setting, start: nat, j: nat, k: nat)
    requires k <= |c.rules|
  {
    && start <= j < k && Prepares(c, j) && c.rules[j].action.options.rewriteTTL.Some?
    && forall m :: j < m < k && Prepares(c, m) ==> c.rules[m].action.options.rewriteTTL.None?
  }

  ghost predicate LastSubnet(c: Setting, start: nat, j: nat, k: nat)
    requires k <= |c.rules|
  {
    && start <= j < k && Prepares(c, j) && c.rules[j].action.options.clientSubnet.Some?
    && forall m :: j < m < k && Prepares(c, m) ==> c.rules[m].action.options.clientSubnet.None?
  }

  lemma {:induction false} StrategyGathered(c: Setting, start: nat, j: nat, k: nat)
    requires k <= |c.rules| && LastStrategy(c, start, j, k)
    ensures Gathered(c, start, k).strategy == c.rules[j].action.options.strategy
    decreases k
  {
    if j == k - 1 {
    } else {
      StrategyGathered(c, start, j, k - 1);
      assert Prepares(c, k - 1) ==> c.rules[k - 1].action.options.strategy == AsIS;
    }
  }

  lemma {:induction false} StrategyKept(c: Setting, start: nat, k: nat)
    requires start <= k <= |c.rules|
    requires forall j :: start <= j < k && Prepares(c, j) ==> c.rules[j].action.options.strategy == AsIS
    ensures Gathered(c, start, k).strategy == c.options.strategy
    decreases k
  {
    if k == start {
    } else {
      StrategyKept(c, start, k - 1);
      assert Prepares(c, k - 1) ==> c.rules[k - 1].action.options.strategy == AsIS;
    }
  }

  lemma {:induction false} TTLGathered(c: Setting, start: nat, j: nat, k: nat)
    requires k <= |c.rules| && LastTTL(c, start, j, k)
    ensures Gathered(c, start, k).rewriteTTL == c.rules[j].action.options.rewriteTTL
    decreases k
  {
    if j == k - 1 {
    } else {
      TTLGathered(c, start, j, k - 1);
      assert Prepares(c, k - 1) ==> c.rules[k - 1].action.options.rewriteTTL.None?;
    }
  }

  lemma {:induction false} TTLKept(c: Setting, start: nat, k: nat)
    requires start <= k <= |c.rules|
    requires forall j :: start <= j < k && Prepares(c, j) ==> c.rules[j].action.options.rewriteTTL.None?
    ensures Gathered(c, start, k).rewriteTTL == c.options.rewriteTTL
    decreases k
  {
    if k == start {
    } else {
      TTLKept(c, start, k - 1);
      assert Prepares(c, k - 1) ==> c.rules[k - 1].action.options.rewriteTTL.None?;
    }
  }

  lemma {:induction false} SubnetGathered(c: Setting, start: nat, j: nat, k: nat)
    requires k <= |c.rules| && LastSubnet(c, start, j, k)
    ensures Gathered(c, start, k).clientSubnet == c.rules[j].action.options.clientSubnet
    decreases k
  {
    if j == k - 1 {
    } else {
      SubnetGathered(c, start, j, k - 1);
      assert Prepares(c, k - 1) ==> c.rules[k - 1].action.options.clientSubnet.None?;
    }
  }

  lemma {:induction false} SubnetKept(c: Setting, start: nat, k: nat)
    requires start <= k <= |c.rules|
    requires forall j :: start <= j < k && Prepares(c, j) ==> c.rules[j].action.options.clientSubnet.None?
    ensures Gathered(c, start, k).clientSubnet == c.options.clientSubnet
    decreases k
  {
    if k == start {
    } else {
      SubnetKept(c, start, k - 1);
      assert Prepares(c, k - 1) ==> c.rules[k - 1].action.options.clientSubnet.None?;
    }
  }

  /** The options a route rule asks its server with, given those gathered on the way; the strategy of
      the router fills in for none. */
  lemma RouteAsksWith(c: Setting, k: nat)
    requires k < |c.rules| && c.rules[k].action.Route? && c.rules[k].action.server in c.transports
    ensures var a, o, q := c.rules[k].action, Gathered(c, SearchStart(c, k), k), QueryAt(c, k);
            var strategy := if a.options.strategy != AsIS then a.options.strategy else o.strategy;
            && q.rule == k && q.transport == c.transports[a.server]
            && q.options.strategy == (if strategy == AsIS then c.defaultStrategy else strategy)
            && (q.options.disableCache <==>
                  o.disableCache || a.options.disableCache || q.transport.kind == FakeIP)
            && q.options.disableOptimisticCache == o.disableOptimisticCache
            && q.options.rewriteTTL == (if a.options.rewriteTTL.Some? then a.options.rewriteTTL else o.rewriteTTL)
            && q.options.clientSubnet ==
                 (if a.options.clientSubnet.Some? then a.options.clientSubnet else o.clientSubnet)
  {
  }

  /** The default server is asked with what was gathered. */
  lemma DefaultAsksWith(c: Setting)
    ensures var o, q := Gathered(c, SearchStart(c, |c.rules|), |c.rules|), QueryAt(c, |c.rules|);
            && q.rule == |c.rules| && q.transport == c.defaultTransport
            && q.options == o.(strategy := if o.strategy == AsIS then c.defaultStrategy else o.strategy)
  {
  }

  // ------------------------------------------------------ what Exchange and Lookup return

  /** Exchange goes on after rule `j` only if its server gave no answer, and either rejected it under
      an address limit or may be bypassed while the caller still waits; it ends at the first candidate
      of which this is not so, and returns what that candidate says. */
  lemma ExchangeAnswersFirst(c: Setting, ask: (nat, Transport, QueryOptions) -> Reply, canceled: nat -> bool)
    ensures var d := Walk(c, ask, RetryExchange(c, canceled), 0);
            && d.rule <= |c.rules| && (d.rule < |c.rules| ==> Candidate(c, d.rule))
            && (forall j :: 0 <= j < d.rule && Candidate(c, j) ==>
                  && TransportAt(c, j).Some?
                  && var reply := ReplyAt(c, ask, j);
                     && !reply.Answer?
                     && (|| (reply.Rejected? && c.rules[j].addressLimit)
                         || (c.rules[j].action.bypassIfFailed && !canceled(j))))
            && (d.rule < |c.rules| && c.rules[d.rule].action.Route? ==>
                  && d == Asked(d.rule, ReplyAt(c, ask, d.rule))
                  && (!d.reply.Answer? ==>
                        && !(d.reply.Rejected? && c.rules[d.rule].addressLimit)
                        && !(c.rules[d.rule].action.bypassIfFailed && !canceled(d.rule))))
            && (d.rule == |c.rules| ==> d == Asked(d.rule, ReplyAt(c, ask, d.rule)))
    ensures var d := Walk(c, ask, RetryExchange(c, canceled), 0);
            var result := ExchangeResultOf(c, d);
            if d.Asked? then result == Replied(d.reply)
            else
              d.rule < |c.rules| &&
              match c.rules[d.rule].action
              case Reject(drop) => result == if drop then Drop else Refusal
              case Predefined(_, answer, _) => result == Given(answer)
              case _ => false
  {
    var again := RetryExchange(c, canceled);
    WalkSettles(c, ask, again, 0);
    var d := Walk(c, ask, again, 0);
    forall j | 0 <= j < d.rule && Candidate(c, j)
      ensures TransportAt(c, j).Some? && ExchangeAgain(c, canceled, j, ReplyAt(c, ask, j))
    {
      assert PassedOver(c, ask, again, j);
    }
  }

  /** Lookup goes on after rule `j` only if its server gave no address and may be bypassed, or it failed
      under an address limit. */
  lemma LookupAnswersFirst(c: Setting, ask: (nat, Transport, QueryOptions) -> LookupReply)
    ensures var d := Walk(c, ask, RetryLookup(c), 0);
            && d.rule <= |c.rules| && (d.rule < |c.rules| ==> Candidate(c, d.rule))
            && (forall j :: 0 <= j < d.rule && Candidate(c, j) ==>
                  && TransportAt(c, j).Some?
                  && var reply := ReplyAt(c, ask, j);
                     || (reply.addresses == [] && c.rules[j].action.bypassIfFailed)
                     || (reply.error.Some? && c.rules[j].addressLimit))
            && (d.rule < |c.rules| && c.rules[d.rule].action.Route? ==>
                  && d == Asked(d.rule, ReplyAt(c, ask, d.rule))
                  && (d.reply.addresses != [] || !c.rules[d.rule].action.bypassIfFailed)
                  && (d.reply.error.None? || !c.rules[d.rule].addressLimit))
            && (d.rule == |c.rules| ==> d == Asked(d.rule, ReplyAt(c, ask, d.rule)))
    ensures var d := Walk(c, ask, RetryLookup(c), 0);
            var result := LookupResultOf(c, d);
            if d.Asked? then
              if d.reply.error.Some? then result == LookupFailed(d.reply.error.value)
              else result == if d.reply.addresses == [] then EmptyResult else Addresses(d.reply.addresses)
            else
              d.rule < |c.rules| &&
              match c.rules[d.rule].action
              case Reject(_) => result == Denied
              case Predefined(rcode, _, addresses) =>
                if rcode != 0 then result == Coded(rcode)
                else result == if addresses == [] then EmptyResult else Addresses(addresses)
              case _ => false
  {
    var again := RetryLookup(c);
    WalkSettles(c, ask, again, 0);
    var d := Walk(c, ask, again, 0);
    forall j | 0 <= j < d.rule && Candidate(c, j)
      ensures TransportAt(c, j).Some? && LookupAgain(c, j, ReplyAt(c, ask, j))
    {
      assert PassedOver(c, ask, again, j);
    }
  }

  /** Each resumed search starts from the caller's options again: a route-options rule that turns
      the cache off does so for a later server if and only if no other candidate lies between. */
  lemma {:induction false} OptionsReachOnlyOneSearch(c: Setting, start: nat, k: nat)
    requires start <= k <= |c.rules| && SearchStart(c, k) == start
    ensures Gathered(c, start, k).disableCache <==>
            || c.options.disableCache
            || exists j | 0 <= j < k ::
                 && Prepares(c, j) && c.rules[j].action.options.disableCache
                 && forall m | j < m < k :: !Candidate(c, m)
    decreases k
  {
    if k > start {
      OptionsReachOnlyOneSearch(c, start, k - 1);
    } else if k > 0 {
      assert Candidate(c, k - 1);
    }
  }
}
