/**
 The new DNS rule interpreter, exchangeWithRules.  Rule matching, the transports
 and the answers of the client are an arbitrary environment; a rule may match on
 the response evaluated so far.
 */
module RuleExchange {
  import opened Wrappers
  import opened DnsRules
  import opened TransportGraph

  datatype QueryOptions = QueryOptions(
    strategy: Strategy, disableCache: bool, disableOptimisticCache: bool,
    rewriteTTL: Option<nat>, clientSubnet: Option<Prefix>)

  type ExchangeError = nat

  /** `exchange(i, ...)` is the answer to the query made on behalf of rule `i`; the query of the
      default server has the number of rules as index. */
  datatype Env = Env(
    transports: map<string, Transport>,
    defaultTransport: Transport,
    defaultStrategy: Strategy,
    allowFakeIP: bool,
    matches: (nat, Option<Message>) -> bool,
    exchange: (nat, Transport, QueryOptions) -> Result<Message, ExchangeError>)

  datatype Outcome =
    | Exchanged(answer: Result<Message, ExchangeError>, transport: Transport)
    | Responded(response: Message, from: Transport)
    | MissingResponse
    | Refused
    | Dropped
    | Fixed(predefined: Message)

  datatype Evaluated = Evaluated(response: Message, transport: Transport)

  /** The variables of the loop. */
  datatype State = State(options: QueryOptions, evaluated: Option<Evaluated>)

  function ApplyRouteOptions(o: QueryOptions, r: RouteOptions): QueryOptions {
    QueryOptions(
      o.strategy,
      o.disableCache || r.disableCache,
      o.disableOptimisticCache || r.disableOptimisticCache,
      if r.rewriteTTL.Some? then r.rewriteTTL else o.rewriteTTL,
      if r.clientSubnet.Some? then r.clientSubnet else o.clientSubnet)
  }

  /** What applying all options would be, strategy included. */
  function ApplyAllOptions(o: QueryOptions, r: RouteOptions): QueryOptions {
    ApplyRouteOptions(o, r).(strategy := if r.strategy != AsIS then r.strategy else o.strategy)
  }

  /** `all` selects the reference that honours strategies. */
  function Apply(all: bool, o: QueryOptions, r: RouteOptions): QueryOptions {
    if all then ApplyAllOptions(o, r) else ApplyRouteOptions(o, r)
  }

  function WithDefaultStrategy(env: Env, o: QueryOptions): QueryOptions {
    if o.strategy == AsIS then o.(strategy := env.defaultStrategy) else o
  }

  function ResponseOf(e: Option<Evaluated>): Option<Message> {
    if e.Some? then Some(e.value.response) else None
  }

  // ------------------------------------------------------------- specification

  /** The answer an evaluate rule gets, if it gets one. */
  function EvaluateAt(all: bool, env: Env, a: Action, i: nat, o: QueryOptions): Option<Evaluated>
    requires a.Evaluate?
  {
    if a.server !in env.transports then None
    else
      var transport := env.transports[a.server];
      match env.exchange(i, transport, WithDefaultStrategy(env, Apply(all, o, a.options)))
      case Err(_) => None
      case Ok(response) => Some(Evaluated(response, transport))
  }

  /** What a matched rule leaves behind when it does not end the walk. */
  function After(all: bool, env: Env, a: Action, i: nat, s: State): State {
    match a
    case SetOptions(r) => s.(options := Apply(all, s.options, r))
    case Evaluate(_, _) => s.(evaluated := EvaluateAt(all, env, a, i, s.options))
    case _ => s
  }

  /** The outcome of a matched rule that ends the walk. */
  function Final(all: bool, env: Env, a: Action, i: nat, s: State): Option<Outcome> {
    match a
    case Respond =>
      Some(if s.evaluated.None? then MissingResponse
           else Responded(s.evaluated.value.response, s.evaluated.value.transport))
    case Route(server, r, _) =>
      if server !in env.transports then None
      else
        var transport := env.transports[server];
        if transport.kind == FakeIP && !env.allowFakeIP then None
        else
          var o := Apply(all, s.options, r);
          var o' := if transport.kind == FakeIP then o.(disableCache := true) else o;
          Some(Exchanged(env.exchange(i, transport, WithDefaultStrategy(env, o')), transport))
    case Reject(drop) => Some(if drop then Dropped else Refused)
    case Predefined(_, answer, _) => Some(Fixed(answer))
    case _ => None
  }

  function AskDefault(env: Env, i: nat, s: State): Outcome {
    Exchanged(env.exchange(i, env.defaultTransport, WithDefaultStrategy(env, s.options)), env.defaultTransport)
  }

  function Walk(all: bool, env: Env, actions: seq<Action>, i: nat, s: State): Outcome
    requires i <= |actions|
    decreases |actions| - i
  {
    if i == |actions| then AskDefault(env, i, s)
    else if !env.matches(i, ResponseOf(s.evaluated)) then Walk(all, env, actions, i + 1, s)
    else
      var final := Final(all, env, actions[i], i, s);
      if final.Some? then final.value
      else Walk(all, env, actions, i + 1, After(all, env, actions[i], i, s))
  }

  // ------------------------------------------------------------ the interpreter

  /** exchangeWithRules.  The response and the transport it came from are separate
      variables, kept set or unset together. */
  method ExchangeWithRules(env: Env, actions: seq<Action>, options: QueryOptions) returns (outcome: Outcome)
    ensures outcome == Walk(false, env, actions, 0, State(options, None))
  {
    var effectiveOptions := options;
    var evaluatedResponse: Option<Message> := None;
    var evaluatedTransport: Option<Transport> := None;
    for i := 0 to |actions|
      invariant evaluatedResponse.Some? <==> evaluatedTransport.Some?
      invariant Walk(false, env, actions, 0, State(options, None)) ==
                Walk(false, env, actions, i, State(effectiveOptions, Pair(evaluatedResponse, evaluatedTransport)))
    {
      if !env.matches(i, evaluatedResponse) {
        continue;
      }
      match actions[i]
      case SetOptions(r) =>
        effectiveOptions := ApplyRouteOptions(effectiveOptions, r);
      case Evaluate(server, r) =>
        if server !in env.transports {
          evaluatedResponse, evaluatedTransport := None, None;
          continue;
        }
        var queryOptions := ApplyRouteOptions(effectiveOptions, r);
        if queryOptions.strategy == AsIS {
          queryOptions := queryOptions.(strategy := env.defaultStrategy);
        }
        var answer := env.exchange(i, env.transports[server], queryOptions);
        if answer.Err? {
          evaluatedResponse, evaluatedTransport := None, None;
          continue;
        }
        evaluatedResponse, evaluatedTransport := Some(answer.value), Some(env.transports[server]);
      case Respond =>
        if evaluatedResponse.None? {
          return MissingResponse;
        }
        return Responded(evaluatedResponse.value, evaluatedTransport.value);
      case Route(server, r, _) =>
        if server !in env.transports {
          continue;
        }
        var transport := env.transports[server];
        if transport.kind == FakeIP && !env.allowFakeIP {
          continue;
        }
        var queryOptions := ApplyRouteOptions(effectiveOptions, r);
        if transport.kind == FakeIP {
          queryOptions := queryOptions.(disableCache := true);
        }
        if queryOptions.strategy == AsIS {
          queryOptions := queryOptions.(strategy := env.defaultStrategy);
        }
        return Exchanged(env.exchange(i, transport, queryOptions), transport);
      case Reject(drop) =>
        if drop {
          return Dropped;
        }
        return Refused;
      case Predefined(_, answer, _) =>
        return Fixed(answer);
      case Unset(_, _) =>
    }
    if effectiveOptions.strategy == AsIS {
      effectiveOptions := effectiveOptions.(strategy := env.defaultStrategy);
    }
    return Exchanged(env.exchange(|actions|, env.defaultTransport, effectiveOptions), env.defaultTransport);
  }

  function Pair(response: Option<Message>, transport: Option<Transport>): Option<Evaluated>
    requires response.Some? <==> transport.Some?
  {
    if response.Some? then Some(Evaluated(response.value, transport.value)) else None
  }

  // ----------------------------------------------------- strategies are not lost

  /** The runtime actions of a list of configured rules. */
  ghost predicate ActionsOf(rules: seq<Rule>, actions: seq<Action>) {
    && |actions| == |rules|
    && forall i :: 0 <= i < |rules| ==> !rules[i].Unknown? && actions[i] == ActionOf(rules[i])
  }

  lemma {:induction false} WalkIgnoresNothing(env: Env, actions: seq<Action>, i: nat, s: State)
    requires i <= |actions| && forall k :: 0 <= k < |actions| ==> !ActionHasStrategy(actions[k])
    ensures Walk(true, env, actions, i, s) == Walk(false, env, actions, i, s)
    decreases |actions| - i
  {
    if i < |actions| {
      assert !ActionHasStrategy(actions[i]);
      WalkIgnoresNothing(env, actions, i + 1, s);
      WalkIgnoresNothing(env, actions, i + 1, After(false, env, actions[i], i, s));
    }
  }

  /** For rules the analysis sends to this interpreter, skipping the strategy changes no outcome
      for any query, matching and answers. */
  lemma SkippingStrategyIsSound(known: RuleSets, rules: seq<Rule>, actions: seq<Action>, env: Env,
                                options: QueryOptions)
    requires ActionsOf(rules, actions)
    requires ResolveKnown(known, rules).Ok? && !ResolveKnown(known, rules).value.legacy
    ensures Walk(true, env, actions, 0, State(options, None)) == Walk(false, env, actions, 0, State(options, None))
  {
    NewModeHasNoStrategy(known, rules);
    forall k | 0 <= k < |actions| ensures !ActionHasStrategy(actions[k]) {
      assert rules[k] in rules;
      assert !Somewhere(rules[k], n => HasStrategy(n));
    }
    WalkIgnoresNothing(env, actions, 0, State(options, None));
  }

  // -------------------------------------------------- respond and its evaluate

  /** The state in which rule `k` is reached, if no earlier rule ends the walk. */
  function Reach(env: Env, actions: seq<Action>, options: QueryOptions, k: nat): Option<State>
    requires k <= |actions|
  {
    if k == 0 then Some(State(options, None))
    else
      var before := Reach(env, actions, options, k - 1);
      if before.None? then None
      else if !env.matches(k - 1, ResponseOf(before.value.evaluated)) then before
      else if Final(false, env, actions[k - 1], k - 1, before.value).Some? then None
      else Some(After(false, env, actions[k - 1], k - 1, before.value))
  }

  /** Rule `j` is reached, matches and is an evaluate. */
  predicate Evaluates(env: Env, actions: seq<Action>, options: QueryOptions, j: nat)
    requires j < |actions|
  {
    && actions[j].Evaluate?
    && Reach(env, actions, options, j).Some?
    && env.matches(j, ResponseOf(Reach(env, actions, options, j).value.evaluated))
  }

  ghost predicate LastEvaluate(env: Env, actions: seq<Action>, options: QueryOptions, j: nat, k: nat)
    requires k <= |actions|
  {
    && j < k && Evaluates(env, actions, options, j)
    && forall m :: j < m < k ==> !Evaluates(env, actions, options, m)
  }

  /** At any rule, the response at hand is the answer of the last evaluate that matched, and there
      is none if no evaluate matched or that one failed. */
  lemma {:induction false} EvaluatedIsLast(env: Env, actions: seq<Action>, options: QueryOptions, k: nat)
    requires k <= |actions| && Reach(env, actions, options, k).Some?
    ensures var evaluated := Reach(env, actions, options, k).value.evaluated;
            && (forall j: nat :: LastEvaluate(env, actions, options, j, k) ==>
                  evaluated == EvaluateAt(false, env, actions[j], j, Reach(env, actions, options, j).value.options))
            && ((forall j :: 0 <= j < k ==> !Evaluates(env, actions, options, j)) ==> evaluated.None?)
  {
    if k == 0 {
    } else {
      EvaluatedIsLast(env, actions, options, k - 1);
      if Evaluates(env, actions, options, k - 1) {
        assert forall j: nat :: LastEvaluate(env, actions, options, j, k) ==> j == k - 1;
      } else {
        assert forall j: nat :: LastEvaluate(env, actions, options, j, k) ==>
                                  LastEvaluate(env, actions, options, j, k - 1);
      }
    }
  }

  /** The walk ends at the first rule that is reached, matches and is final. */
  lemma {:induction false} WalkEnds(env: Env, actions: seq<Action>, options: QueryOptions, i: nat)
    returns (k: nat)
    requires i <= |actions| && Reach(env, actions, options, i).Some?
    ensures i <= k <= |actions| && Reach(env, actions, options, k).Some?
    ensures var s := Reach(env, actions, options, k).value;
            var outcome := Walk(false, env, actions, i, Reach(env, actions, options, i).value);
            if k == |actions| then outcome == AskDefault(env, k, s)
            else env.matches(k, ResponseOf(s.evaluated)) && Final(false, env, actions[k], k, s) == Some(outcome)
    decreases |actions| - i
  {
    k := i;
    if i < |actions| {
      var s := Reach(env, actions, options, i).value;
      if !env.matches(i, ResponseOf(s.evaluated)) || Final(false, env, actions[i], i, s).None? {
        k := WalkEnds(env, actions, options, i + 1);
      }
    }
  }

  lemma LastExists(env: Env, actions: seq<Action>, options: QueryOptions, j: nat, k: nat) returns (last: nat)
    requires j < k <= |actions| && Evaluates(env, actions, options, j)
    ensures LastEvaluate(env, actions, options, last, k)
  {
    last := k - 1;
    while !Evaluates(env, actions, options, last)
      invariant j <= last < k
      invariant forall m :: last < m < k ==> !Evaluates(env, actions, options, m)
      decreases last
    {
      last := last - 1;
    }
  }

  /** A respond hands out exactly the answer the last matched evaluate got. */
  lemma RespondIsLastEvaluate(env: Env, actions: seq<Action>, options: QueryOptions) returns (j: nat, k: nat)
    requires Walk(false, env, actions, 0, State(options, None)).Responded?
    ensures var outcome := Walk(false, env, actions, 0, State(options, None));
            && k < |actions| && actions[k].Respond? && LastEvaluate(env, actions, options, j, k)
            && EvaluateAt(false, env, actions[j], j, Reach(env, actions, options, j).value.options) ==
                 Some(Evaluated(outcome.response, outcome.from))
  {
    k := WalkEnds(env, actions, options, 0);
    EvaluatedIsLast(env, actions, options, k);
    var some :| 0 <= some < k && Evaluates(env, actions, options, some);
    j := LastExists(env, actions, options, some, k);
  }

  /** No evaluate matched before rule `k`, or the last one that did got no answer. */
  ghost predicate NothingEvaluated(env: Env, actions: seq<Action>, options: QueryOptions, k: nat)
    requires k <= |actions|
  {
    || (forall j :: 0 <= j < k ==> !Evaluates(env, actions, options, j))
    || (exists j: nat :: LastEvaluate(env, actions, options, j, k) &&
          EvaluateAt(false, env, actions[j], j, Reach(env, actions, options, j).value.options).None?)
  }

  /** The walk ends in the missing-response error if and only if the rule it ends at is a respond and
      nothing was evaluated for it. */
  lemma MissingResponseIff(env: Env, actions: seq<Action>, options: QueryOptions) returns (k: nat)
    ensures k <= |actions| && Reach(env, actions, options, k).Some?
    ensures k < |actions| ==>
              var s := Reach(env, actions, options, k).value;
              && env.matches(k, ResponseOf(s.evaluated))
              && Final(false, env, actions[k], k, s) == Some(Walk(false, env, actions, 0, State(options, None)))
    ensures Walk(false, env, actions, 0, State(options, None)).MissingResponse? <==>
              k < |actions| && actions[k].Respond? && NothingEvaluated(env, actions, options, k)
  {
    k := WalkEnds(env, actions, options, 0);
    EvaluatedIsLast(env, actions, options, k);
    if some :| 0 <= some < k && Evaluates(env, actions, options, some) {
      var j := LastExists(env, actions, options, some, k);
      assert forall i: nat :: LastEvaluate(env, actions, options, i, k) ==> i == j;
    }
  }

  /** For a validated list, the missing-response error means besides that an evaluate rule precedes the
      respond. */
  lemma MissingResponseExplained(known: RuleSets, rules: seq<Rule>, env: Env, actions: seq<Action>,
                                 options: QueryOptions)
    returns (k: nat)
    requires ActionsOf(rules, actions) && Validate(known, rules).None?
    requires Walk(false, env, actions, 0, State(options, None)).MissingResponse?
    ensures k < |actions| && actions[k].Respond?
    ensures exists j :: 0 <= j < k && actions[j].Evaluate?
    ensures NothingEvaluated(env, actions, options, k)
  {
    k := MissingResponseIff(env, actions, options);
    assert NeedsResponse(rules[k]);
    ValidatedHasEvaluate(known, rules, k);
    var e :| 0 <= e < k && IsEvaluate(rules[e]);
    assert actions[e].Evaluate?;
  }

  // ------------------------------------------------------ who is asked, and with what

  /** Rule `j` is reached, matches and is a route-options rule. */
  predicate Sets(env: Env, actions: seq<Action>, options: QueryOptions, j: nat)
    requires j < |actions|
  {
    && actions[j].SetOptions?
    && Reach(env, actions, options, j).Some?
    && env.matches(j, ResponseOf(Reach(env, actions, options, j).value.evaluated))
  }

  /** Rule `j` is the last before `k` to set the TTL. */
  ghost predicate LastTTL(env: Env, actions: seq<Action>, options: QueryOptions, j: nat, k: nat)
    requires k <= |actions|
  {
    && j < k && Sets(env, actions, options, j) && actions[j].options.rewriteTTL.Some?
    && forall m :: j < m < k && Sets(env, actions, options, m) ==> actions[m].options.rewriteTTL.None?
  }

  /** Rule `j` is the last before `k` to set the client subnet. */
  ghost predicate LastSubnet(env: Env, actions: seq<Action>, options: QueryOptions, j: nat, k: nat)
    requires k <= |actions|
  {
    && j < k && Sets(env, actions, options, j) && actions[j].options.clientSubnet.Some?
    && forall m :: j < m < k && Sets(env, actions, options, m) ==> actions[m].options.clientSubnet.None?
  }

  /** The switches in force at a rule: the caller's, or turned on by any route-options rule before it.
      The strategy is always the caller's. */
  lemma {:induction false} SwitchesReached(env: Env, actions: seq<Action>, options: QueryOptions, k: nat)
    requires k <= |actions| && Reach(env, actions, options, k).Some?
    ensures var o := Reach(env, actions, options, k).value.options;
            && o.strategy == options.strategy
            && (o.disableCache <==>
                  || options.disableCache
                  || exists j :: 0 <= j < k && Sets(env, actions, options, j) && actions[j].options.disableCache)
            && (o.disableOptimisticCache <==>
                  || options.disableOptimisticCache
                  || exists j :: && 0 <= j < k && Sets(env, actions, options, j)
                                 && actions[j].options.disableOptimisticCache)
  {
    if k == 0 {
    } else {
      SwitchesReached(env, actions, options, k - 1);
      assert Sets(env, actions, options, k - 1) || !Sets(env, actions, options, k - 1);
    }
  }

  /** The TTL in force is that of the last route-options rule that has one. */
  lemma {:induction false} TTLReached(env: Env, actions: seq<Action>, options: QueryOptions, j: nat, k: nat)
    requires k <= |actions| && Reach(env, actions, options, k).Some? && LastTTL(env, actions, options, j, k)
    ensures Reach(env, actions, options, k).value.options.rewriteTTL == actions[j].options.rewriteTTL
    decreases k
  {
    if j == k - 1 {
    } else {
      TTLReached(env, actions, options, j, k - 1);
      assert Sets(env, actions, options, k - 1) ==> actions[k - 1].options.rewriteTTL.None?;
    }
  }

  /** If no such rule has one it is the caller's. */
  lemma {:induction false} TTLKept(env: Env, actions: seq<Action>, options: QueryOptions, k: nat)
    requires k <= |actions| && Reach(env, actions, options, k).Some?
    requires forall j :: 0 <= j < k && Sets(env, actions, options, j) ==> actions[j].options.rewriteTTL.None?
    ensures Reach(env, actions, options, k).value.options.rewriteTTL == options.rewriteTTL
  {
    if k == 0 {
    } else {
      TTLKept(env, actions, options, k - 1);
      assert Sets(env, actions, options, k - 1) ==> actions[k - 1].options.rewriteTTL.None?;
    }
  }

  /** The client subnet in force is that of the last route-options rule that has one. */
  lemma {:induction false} SubnetReached(env: Env, actions: seq<Action>, options: QueryOptions, j: nat, k: nat)
    requires k <= |actions| && Reach(env, actions, options, k).Some? && LastSubnet(env, actions, options, j, k)
    ensures Reach(env, actions, options, k).value.options.clientSubnet == actions[j].options.clientSubnet
    decreases k
  {
    if j == k - 1 {
    } else {
      SubnetReached(env, actions, options, j, k - 1);
      assert Sets(env, actions, options, k - 1) ==> actions[k - 1].options.clientSubnet.None?;
    }
  }

  /** If no such rule has one it is the caller's. */
  lemma {:induction false} SubnetKept(env: Env, actions: seq<Action>, options: QueryOptions, k: nat)
    requires k <= |actions| && Reach(env, actions, options, k).Some?
    requires forall j :: 0 <= j < k && Sets(env, actions, options, j) ==> actions[j].options.clientSubnet.None?
    ensures Reach(env, actions, options, k).value.options.clientSubnet == options.clientSubnet
  {
    if k == 0 {
    } else {
      SubnetKept(env, actions, options, k - 1);
      assert Sets(env, actions, options, k - 1) ==> actions[k - 1].options.clientSubnet.None?;
    }
  }

  /** Rule `j` does not end the walk: it does not match, only prepares, or routes to a server that is
      unknown or a FakeIP server the caller does not want. */
  predicate LetsPass(env: Env, actions: seq<Action>, j: nat, response: Option<Message>)
    requires j < |actions|
  {
    !env.matches(j, response) ||
    match actions[j]
    case Unset(_, _) => true
    case SetOptions(_) => true
    case Evaluate(_, _) => true
    case Route(server, _, _) =>
      server !in env.transports || (env.transports[server].kind == FakeIP && !env.allowFakeIP)
    case _ => false
  }

  /** A rule is reached if and only if every rule before it lets the query pass. */
  lemma {:induction false} ReachedIff(env: Env, actions: seq<Action>, options: QueryOptions, k: nat)
    requires k <= |actions|
    ensures Reach(env, actions, options, k).Some? <==>
            forall j :: 0 <= j < k ==>
              && Reach(env, actions, options, j).Some?
              && LetsPass(env, actions, j, ResponseOf(Reach(env, actions, options, j).value.evaluated))
    ensures forall j :: 0 <= j <= k && Reach(env, actions, options, k).Some? ==> Reach(env, actions, options, j).Some?
  {
    if k == 0 {
    } else {
      ReachedIff(env, actions, options, k - 1);
    }
  }

  /** The query an action with options `r` makes of `transport` when the options in force are `o`. */
  ghost predicate IsQuery(env: Env, o: QueryOptions, r: Option<RouteOptions>, fakeIP: bool, q: QueryOptions) {
    && q.strategy == (if o.strategy == AsIS then env.defaultStrategy else o.strategy)
    && (q.disableCache <==> o.disableCache || (r.Some? && r.value.disableCache) || fakeIP)
    && (q.disableOptimisticCache <==> o.disableOptimisticCache || (r.Some? && r.value.disableOptimisticCache))
    && q.rewriteTTL == (if r.Some? && r.value.rewriteTTL.Some? then r.value.rewriteTTL else o.rewriteTTL)
    && q.clientSubnet == (if r.Some? && r.value.clientSubnet.Some? then r.value.clientSubnet else o.clientSubnet)
  }

  /** An evaluate rule asks its own server; it has an answer if and only if the server is known and
      answers. */
  lemma EvaluateAsksServer(env: Env, a: Action, i: nat, o: QueryOptions) returns (q: QueryOptions)
    requires a.Evaluate?
    ensures IsQuery(env, o, Some(a.options), false, q)
    ensures a.server !in env.transports ==> EvaluateAt(false, env, a, i, o).None?
    ensures a.server in env.transports ==>
              var transport := env.transports[a.server];
              var answer := env.exchange(i, transport, q);
              EvaluateAt(false, env, a, i, o) ==
                if answer.Ok? then Some(Evaluated(answer.value, transport)) else None
  {
    q := WithDefaultStrategy(env, ApplyRouteOptions(o, a.options));
  }

  /** What the interpreter returns, by the rule it ends at: a route asks its own server, which is known
      and wanted; the default server is asked when no rule is left; reject, predefined and respond
      return what they say.  No other action ends the walk. */
  lemma OutcomeByRule(env: Env, actions: seq<Action>, options: QueryOptions) returns (k: nat, q: QueryOptions)
    ensures k <= |actions| && Reach(env, actions, options, k).Some?
    ensures k < |actions| ==> env.matches(k, ResponseOf(Reach(env, actions, options, k).value.evaluated))
    ensures k < |actions| ==>
              actions[k].Route? || actions[k].Respond? || actions[k].Reject? || actions[k].Predefined?
    ensures k == |actions| ==>
              && IsQuery(env, Reach(env, actions, options, k).value.options, None, false, q)
              && Walk(false, env, actions, 0, State(options, None)) ==
                   Exchanged(env.exchange(k, env.defaultTransport, q), env.defaultTransport)
    ensures k < |actions| && actions[k].Route? ==>
              && actions[k].server in env.transports
              && var transport := env.transports[actions[k].server];
                 && (transport.kind == FakeIP ==> env.allowFakeIP)
                 && IsQuery(env, Reach(env, actions, options, k).value.options, Some(actions[k].options),
                            transport.kind == FakeIP, q)
                 && Walk(false, env, actions, 0, State(options, None)) ==
                      Exchanged(env.exchange(k, transport, q), transport)
    ensures k < |actions| && actions[k].Respond? ==>
              var evaluated := Reach(env, actions, options, k).value.evaluated;
              Walk(false, env, actions, 0, State(options, None)) ==
                if evaluated.None? then MissingResponse
                else Responded(evaluated.value.response, evaluated.value.transport)
    ensures k < |actions| && actions[k].Reject? ==>
              Walk(false, env, actions, 0, State(options, None)) == if actions[k].drop then Dropped else Refused
    ensures k < |actions| && actions[k].Predefined? ==>
              Walk(false, env, actions, 0, State(options, None)) == Fixed(actions[k].answer)
  {
    k := WalkEnds(env, actions, options, 0);
    var s := Reach(env, actions, options, k).value;
    q := WithDefaultStrategy(env, s.options);
    if k < |actions| && actions[k].Route? {
      var o := ApplyRouteOptions(s.options, actions[k].options);
      var fakeIP := env.transports[actions[k].server].kind == FakeIP;
      q := WithDefaultStrategy(env, if fakeIP then o.(disableCache := true) else o);
    }
  }
}
