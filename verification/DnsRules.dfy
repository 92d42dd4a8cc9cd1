/**
 DNS rules as configured, and the static analysis that decides between the two
 rule interpreters: the legacy one, which retries rules on rejected answers, and
 the new one, which evaluates servers and matches on their responses.
 */
module DnsRules {
  import opened Wrappers

  datatype Strategy = AsIS | PreferIPv4 | PreferIPv6 | IPv4Only | IPv6Only

  type Prefix = nat
  type Message = nat
  type Address = nat

  /** The options a route, evaluate or route-options action carries. */
  datatype RouteOptions = RouteOptions(
    strategy: Strategy, disableCache: bool, disableOptimisticCache: bool,
    rewriteTTL: Option<nat>, clientSubnet: Option<Prefix>)

  /** `Unset` is an action without a type: the analysis reads it as a route, but at run
      time it is no action at all. */
  datatype Action =
    | Unset(server: string, options: RouteOptions)
    | Route(server: string, options: RouteOptions, bypassIfFailed: bool)
    | Evaluate(server: string, options: RouteOptions)
    | SetOptions(options: RouteOptions)
    | Respond
    | Reject(drop: bool)
    | Predefined(rcode: nat, answer: Message, addresses: seq<Address>)

  /** The fields the analysis looks at.  Lists it only tests for emptiness are given by
      their length. */
  datatype DefaultRule = DefaultRule(
    matchResponse: bool,
    ipCIDR: nat, ipIsPrivate: bool, ipAcceptAny: bool,
    responseRcode: Option<nat>, responseAnswer: nat, responseNs: nat, responseExtra: nat,
    ipVersion: int, queryType: nat,
    ruleSet: seq<string>, ruleSetIPCIDRMatchSource: bool, ruleSetIPCIDRAcceptEmpty: bool,
    action: Action)

  datatype Rule =
    | Default(fields: DefaultRule)
    | Logical(rules: seq<Rule>, logicalAction: Action)
    | Unknown

  datatype Metadata = Metadata(containsIPCIDR: bool, containsNonIPCIDR: bool, containsQueryType: bool)

  /** The metadata of the rule-sets a router knows. */
  type RuleSets = map<string, Metadata>

  datatype Flags = Flags(disabled: bool, needed: bool, neededFromStrategy: bool)

  datatype Error =
    | RuleSetNotFound(tag: string)
    | StrategyInNewMode
    | ResponseFieldsNeedMatchResponse
    | PureIPRuleSet
    | AcceptEmptyRemoved
    | NoPrecedingEvaluate(index: nat)

  /** What a rule does when it matches. */
  function ActionOf(rule: Rule): Action
    requires !rule.Unknown?
  {
    if rule.Default? then rule.fields.action else rule.logicalAction
  }

  predicate IsEvaluate(rule: Rule) { !rule.Unknown? && ActionOf(rule).Evaluate? }

  predicate IsRespond(rule: Rule) { !rule.Unknown? && ActionOf(rule).Respond? }

  // ------------------------------------------------------------- mode analysis

  predicate ActionDisablesLegacy(a: Action) {
    (a.Unset? || a.Route? || a.Evaluate? || a.SetOptions?) && a.options.disableOptimisticCache
  }

  predicate ActionHasStrategy(a: Action) {
    (a.Unset? || a.Route? || a.Evaluate? || a.SetOptions?) && a.options.strategy != AsIS
  }

  predicate HasResponseFields(f: DefaultRule) {
    f.responseRcode.Some? || f.responseAnswer > 0 || f.responseNs > 0 || f.responseExtra > 0
  }

  predicate NeedsAddressFilter(f: DefaultRule) {
    f.ruleSetIPCIDRAcceptEmpty || (!f.matchResponse && (f.ipAcceptAny || f.ipCIDR > 0 || f.ipIsPrivate))
  }

  predicate DisablesLegacy(f: DefaultRule) {
    || f.matchResponse || HasResponseFields(f)
    || f.action.Evaluate? || f.action.Respond?
    || f.ipVersion > 0 || f.queryType > 0
  }

  function Merge(a: Flags, b: Flags): Flags {
    Flags(a.disabled || b.disabled, a.needed || b.needed, a.neededFromStrategy || b.neededFromStrategy)
  }

  /** The loop over the rule-sets a default rule refers to. */
  function RuleSetFlags(sets: RuleSets, f: DefaultRule, tags: seq<string>): Result<Flags, Error> {
    if tags == [] then Ok(Flags(false, false, false))
    else if tags[0] !in sets then Err(RuleSetNotFound(tags[0]))
    else
      match RuleSetFlags(sets, f, tags[1..])
      case Err(e) => Err(e)
      case Ok(rest) =>
        var m := sets[tags[0]];
        Ok(Merge(Flags(m.containsQueryType, !f.ruleSetIPCIDRMatchSource && m.containsIPCIDR, false), rest))
  }

  function DefaultRuleFlags(sets: RuleSets, f: DefaultRule): Result<Flags, Error> {
    var strategy := ActionHasStrategy(f.action);
    var disabled := DisablesLegacy(f) || ActionDisablesLegacy(f.action);
    var flags := Flags(disabled, NeedsAddressFilter(f) || strategy, strategy);
    match RuleSetFlags(sets, f, f.ruleSet)
    case Err(e) => Err(e)
    case Ok(more) => Ok(Merge(flags, more))
  }

  function RuleFlags(sets: RuleSets, rule: Rule): Result<Flags, Error>
    decreases rule, 1
  {
    match rule
    case Default(f) => DefaultRuleFlags(sets, f)
    case Logical(rules, a) =>
      var strategy := ActionHasStrategy(a);
      var flags := Flags(a.Evaluate? || a.Respond? || ActionDisablesLegacy(a), strategy, strategy);
      (match RulesFlags(sets, rules)
       case Err(e) => Err(e)
       case Ok(more) => Ok(Merge(flags, more)))
    case Unknown => Ok(Flags(false, false, false))
  }

  function RulesFlags(sets: RuleSets, rules: seq<Rule>): Result<Flags, Error>
    decreases rules, 0
  {
    if rules == [] then Ok(Flags(false, false, false))
    else
      match RuleFlags(sets, rules[0])
      case Err(e) => Err(e)
      case Ok(first) =>
        match RulesFlags(sets, rules[1..])
        case Err(e) => Err(e)
        case Ok(rest) => Ok(Merge(first, rest))
  }

  datatype Mode = Mode(legacy: bool, flags: Flags)

  function ResolveKnown(known: RuleSets, rules: seq<Rule>): Result<Mode, Error> {
    match RulesFlags(known, rules)
    case Err(e) => Err(e)
    case Ok(flags) =>
      if flags.disabled && flags.neededFromStrategy then Err(StrategyInNewMode)
      else Ok(Mode(!flags.disabled && flags.needed, flags))
  }

  /** resolveLegacyDNSMode; overrides take precedence over what the router knows. */
  function Resolve(sets: RuleSets, rules: seq<Rule>, overrides: RuleSets): Result<Mode, Error> {
    ResolveKnown(sets + overrides, rules)
  }

  // ----------------------------------------- the analysis as a search of the tree

  /** Some node of the rule tree has the property. */
  ghost predicate Somewhere(rule: Rule, p: Rule -> bool)
    decreases rule
  {
    p(rule) || (rule.Logical? && exists r <- rule.rules :: Somewhere(r, p))
  }

  ghost predicate Anywhere(rules: seq<Rule>, p: Rule -> bool) {
    exists r <- rules :: Somewhere(r, p)
  }

  /** The options of an action that carries some. */
  function OptionsOf(n: Rule): Option<RouteOptions> {
    if n.Unknown? then None
    else
      match ActionOf(n)
      case Unset(_, options) => Some(options)
      case Route(_, options, _) => Some(options)
      case Evaluate(_, options) => Some(options)
      case SetOptions(options) => Some(options)
      case _ => None
  }

  predicate HasStrategy(n: Rule) { OptionsOf(n).Some? && OptionsOf(n).value.strategy != AsIS }

  /** The node uses something only the new interpreter understands. */
  predicate UsesNewFeature(n: Rule, sets: RuleSets) {
    || IsEvaluate(n) || IsRespond(n)
    || (OptionsOf(n).Some? && OptionsOf(n).value.disableOptimisticCache)
    || (n.Default? && n.fields.matchResponse)
    || (n.Default? && (n.fields.responseRcode.Some? || n.fields.responseAnswer > 0))
    || (n.Default? && (n.fields.responseNs > 0 || n.fields.responseExtra > 0))
    || (n.Default? && (n.fields.ipVersion > 0 || n.fields.queryType > 0))
    || (n.Default? && exists t <- n.fields.ruleSet :: t in sets && sets[t].containsQueryType)
  }

  /** The node relies on filtering addresses after the fact, or sets a strategy. */
  predicate NeedsLegacy(n: Rule, sets: RuleSets) {
    || HasStrategy(n)
    || (n.Default? && n.fields.ruleSetIPCIDRAcceptEmpty)
    || (n.Default? && !n.fields.matchResponse &&
        (n.fields.ipCIDR > 0 || n.fields.ipIsPrivate || n.fields.ipAcceptAny))
    || (n.Default? && !n.fields.ruleSetIPCIDRMatchSource &&
        exists t <- n.fields.ruleSet :: t in sets && sets[t].containsIPCIDR)
  }

  predicate RefersToMissing(n: Rule, sets: RuleSets) {
    n.Default? && exists t <- n.fields.ruleSet :: t !in sets
  }

  lemma {:induction false} RuleSetFlagsExact(sets: RuleSets, f: DefaultRule, tags: seq<string>)
    ensures RuleSetFlags(sets, f, tags).Err? <==> exists t <- tags :: t !in sets
    ensures RuleSetFlags(sets, f, tags).Ok? ==>
              var flags := RuleSetFlags(sets, f, tags).value;
              && (flags.disabled <==> exists t <- tags :: t in sets && sets[t].containsQueryType)
              && (flags.needed <==>
                    !f.ruleSetIPCIDRMatchSource && exists t <- tags :: t in sets && sets[t].containsIPCIDR)
              && !flags.neededFromStrategy
  {
    if tags == [] {
    } else {
      RuleSetFlagsExact(sets, f, tags[1..]);
      assert tags == [tags[0]] + tags[1..];
    }
  }

  /** The flags of a list are the disjunctions over all nodes of its trees, and the analysis
      fails exactly when some node refers to a rule-set that does not exist. */
  lemma {:induction false} FlagsExact(sets: RuleSets, rules: seq<Rule>)
    ensures RulesFlags(sets, rules).Err? <==> Anywhere(rules, n => RefersToMissing(n, sets))
    ensures RulesFlags(sets, rules).Ok? ==>
              var flags := RulesFlags(sets, rules).value;
              && (flags.disabled <==> Anywhere(rules, n => UsesNewFeature(n, sets)))
              && (flags.needed <==> Anywhere(rules, n => NeedsLegacy(n, sets)))
              && (flags.neededFromStrategy <==> Anywhere(rules, n => HasStrategy(n)))
    decreases rules, 0
  {
    if rules == [] {
    } else {
      RuleFlagsExact(sets, rules[0]);
      FlagsExact(sets, rules[1..]);
      assert rules == [rules[0]] + rules[1..];
    }
  }

  lemma {:induction false} RuleFlagsExact(sets: RuleSets, rule: Rule)
    ensures RuleFlags(sets, rule).Err? <==> Somewhere(rule, n => RefersToMissing(n, sets))
    ensures RuleFlags(sets, rule).Ok? ==>
              var flags := RuleFlags(sets, rule).value;
              && (flags.disabled <==> Somewhere(rule, n => UsesNewFeature(n, sets)))
              && (flags.needed <==> Somewhere(rule, n => NeedsLegacy(n, sets)))
              && (flags.neededFromStrategy <==> Somewhere(rule, n => HasStrategy(n)))
    decreases rule, 1
  {
    match rule
    case Default(f) => RuleSetFlagsExact(sets, f, f.ruleSet);
    case Logical(rules, _) => FlagsExact(sets, rules);
    case Unknown =>
  }

  /** The verdict of the analysis in terms of what occurs in the rule trees. */
  lemma ResolveExact(known: RuleSets, rules: seq<Rule>)
    ensures var r := ResolveKnown(known, rules);
            && (r.Err? <==> || Anywhere(rules, n => RefersToMissing(n, known))
                            || (Anywhere(rules, n => UsesNewFeature(n, known)) && Anywhere(rules, n => HasStrategy(n))))
            && (r.Ok? ==> (r.value.flags.disabled <==> Anywhere(rules, n => UsesNewFeature(n, known))))
            && (r.Ok? ==> (r.value.legacy <==> && !Anywhere(rules, n => UsesNewFeature(n, known))
                                               && Anywhere(rules, n => NeedsLegacy(n, known))))
  {
    FlagsExact(known, rules);
  }

  lemma {:induction false} SomewhereMonotone(rule: Rule, p: Rule -> bool, q: Rule -> bool, r: Rule -> bool)
    requires Somewhere(rule, p) && forall n :: p(n) ==> q(n) || r(n)
    ensures Somewhere(rule, q) || Somewhere(rule, r)
    decreases rule
  {
    if !p(rule) {
      var sub :| sub in rule.rules && Somewhere(sub, p);
      SomewhereMonotone(sub, p, q, r);
    }
  }

  lemma AnywhereMonotone(rules: seq<Rule>, p: Rule -> bool, q: Rule -> bool, r: Rule -> bool)
    requires Anywhere(rules, p) && forall n :: p(n) ==> q(n) || r(n)
    ensures Anywhere(rules, q) || Anywhere(rules, r)
  {
    var rule :| rule in rules && Somewhere(rule, p);
    SomewhereMonotone(rule, p, q, r);
  }

  /** The new interpreter may ignore strategies: when it is chosen, no rule anywhere has one. */
  lemma NewModeHasNoStrategy(known: RuleSets, rules: seq<Rule>)
    requires ResolveKnown(known, rules).Ok? && !ResolveKnown(known, rules).value.legacy
    ensures !Anywhere(rules, n => HasStrategy(n))
  {
    ResolveExact(known, rules);
    if Anywhere(rules, n => HasStrategy(n)) {
      AnywhereMonotone(rules, n => HasStrategy(n), n => NeedsLegacy(n, known), n => false);
      NowhereFalse(rules);
    }
  }

  lemma {:induction false} FalseNowhere(rule: Rule)
    ensures !Somewhere(rule, n => false)
    decreases rule
  {
    if rule.Logical? {
      forall r <- rule.rules ensures !Somewhere(r, n => false) {
        FalseNowhere(r);
      }
    }
  }

  lemma NowhereFalse(rules: seq<Rule>)
    ensures !Anywhere(rules, n => false)
  {
    forall r <- rules ensures !Somewhere(r, n => false) {
      FalseNowhere(r);
    }
  }

  /** The legacy interpreter may leave out the new features: when it is chosen, no rule
      anywhere uses one, itself or through a rule-set. */
  lemma LegacyModeUsesNothingNew(known: RuleSets, rules: seq<Rule>)
    requires ResolveKnown(known, rules).Ok? && ResolveKnown(known, rules).value.legacy
    ensures !Anywhere(rules, n => UsesNewFeature(n, known))
  {
    ResolveExact(known, rules);
  }

  // ---------------------------------------------------------------- validation

  function ValidateRuleSets(sets: RuleSets, tags: seq<string>): Option<Error> {
    if tags == [] then None
    else if tags[0] !in sets then Some(RuleSetNotFound(tags[0]))
    else if sets[tags[0]].containsIPCIDR && !sets[tags[0]].containsNonIPCIDR then Some(PureIPRuleSet)
    else ValidateRuleSets(sets, tags[1..])
  }

  /** Returns whether the rule needs a response evaluated before it. */
  function ValidateDefault(sets: RuleSets, f: DefaultRule): Result<bool, Error> {
    if (HasResponseFields(f) || f.ipCIDR > 0 || f.ipIsPrivate || f.ipAcceptAny) && !f.matchResponse then
      Err(ResponseFieldsNeedMatchResponse)
    else
      var bad := if f.matchResponse then None else ValidateRuleSets(sets, f.ruleSet);
      if bad.Some? then Err(bad.value)
      else if f.ruleSetIPCIDRAcceptEmpty then Err(AcceptEmptyRemoved)
      else Ok(f.matchResponse || f.action.Respond?)
  }

  function ValidateTree(sets: RuleSets, rule: Rule): Result<bool, Error>
    decreases rule, 1
  {
    match rule
    case Default(f) => ValidateDefault(sets, f)
    case Logical(rules, a) =>
      (match ValidateSubRules(sets, rules)
       case Err(e) => Err(e)
       case Ok(required) => Ok(a.Respond? || required))
    case Unknown => Ok(false)
  }

  function ValidateSubRules(sets: RuleSets, rules: seq<Rule>): Result<bool, Error>
    decreases rules, 0
  {
    if rules == [] then Ok(false)
    else
      match ValidateTree(sets, rules[0])
      case Err(e) => Err(e)
      case Ok(required) =>
        match ValidateSubRules(sets, rules[1..])
        case Err(e) => Err(e)
        case Ok(more) => Ok(required || more)
  }

  /** validateLegacyDNSModeDisabledRules, from rule `i` on. */
  function ValidateFrom(sets: RuleSets, rules: seq<Rule>, i: nat, seenEvaluate: bool): Option<Error>
    requires i <= |rules|
    decreases |rules| - i
  {
    if i == |rules| then None
    else
      match ValidateTree(sets, rules[i])
      case Err(e) => Some(e)
      case Ok(required) =>
        if required && !seenEvaluate then Some(NoPrecedingEvaluate(i))
        else ValidateFrom(sets, rules, i + 1, seenEvaluate || IsEvaluate(rules[i]))
  }

  function Validate(sets: RuleSets, rules: seq<Rule>): Option<Error> {
    ValidateFrom(sets, rules, 0, false)
  }

  /** A rule somewhere in the tree matches on a response, or the rule itself responds with one. */
  predicate NeedsResponse(n: Rule) {
    IsRespond(n) || (n.Default? && n.fields.matchResponse)
  }

  lemma {:induction false} TreeNeedsResponse(sets: RuleSets, rule: Rule)
    requires ValidateTree(sets, rule).Ok?
    ensures ValidateTree(sets, rule).value <==> Somewhere(rule, n => NeedsResponse(n))
    decreases rule, 1
  {
    if rule.Logical? {
      SubRulesNeedResponse(sets, rule.rules);
    }
  }

  lemma {:induction false} SubRulesNeedResponse(sets: RuleSets, rules: seq<Rule>)
    requires ValidateSubRules(sets, rules).Ok?
    ensures ValidateSubRules(sets, rules).value <==> Anywhere(rules, n => NeedsResponse(n))
    decreases rules, 0
  {
    if rules == [] {
    } else {
      TreeNeedsResponse(sets, rules[0]);
      SubRulesNeedResponse(sets, rules[1..]);
      assert rules == [rules[0]] + rules[1..];
    }
  }

  lemma {:induction false} ValidatedFrom(sets: RuleSets, rules: seq<Rule>, i: nat, seenEvaluate: bool, k: nat)
    requires i <= k < |rules| && ValidateFrom(sets, rules, i, seenEvaluate).None?
    ensures Somewhere(rules[k], n => NeedsResponse(n)) ==>
              seenEvaluate || exists j :: i <= j < k && IsEvaluate(rules[j])
    decreases |rules| - i
  {
    TreeNeedsResponse(sets, rules[i]);
    if i < k {
      ValidatedFrom(sets, rules, i + 1, seenEvaluate || IsEvaluate(rules[i]), k);
    }
  }

  /** In a validated list every rule that needs a response, anywhere in its tree, comes
      after a top-level evaluate. */
  lemma ValidatedHasEvaluate(sets: RuleSets, rules: seq<Rule>, k: nat)
    requires k < |rules| && Validate(sets, rules).None? && Somewhere(rules[k], n => NeedsResponse(n))
    ensures exists j :: 0 <= j < k && IsEvaluate(rules[j])
  {
    ValidatedFrom(sets, rules, 0, false, k);
  }

  // ------------------------------------------------------- exactly what is refused

  /** Without match_response the node matches on addresses or on parts of a response. */
  predicate MatchesUnasked(n: Rule) {
    n.Default? && !n.fields.matchResponse &&
    (|| n.fields.ipCIDR > 0 || n.fields.ipIsPrivate || n.fields.ipAcceptAny
     || n.fields.responseRcode.Some?
     || n.fields.responseAnswer > 0 || n.fields.responseNs > 0 || n.fields.responseExtra > 0)
  }

  /** Without match_response the node refers to a rule-set that is missing or holds only addresses. */
  predicate RefersBadly(n: Rule, sets: RuleSets) {
    n.Default? && !n.fields.matchResponse &&
    exists t <- n.fields.ruleSet :: t !in sets || (sets[t].containsIPCIDR && !sets[t].containsNonIPCIDR)
  }

  /** What the new interpreter does not put up with at a node. */
  predicate Unfit(n: Rule, sets: RuleSets) {
    MatchesUnasked(n) || RefersBadly(n, sets) || (n.Default? && n.fields.ruleSetIPCIDRAcceptEmpty)
  }

  lemma {:induction false} RuleSetsValidIff(sets: RuleSets, tags: seq<string>)
    ensures ValidateRuleSets(sets, tags).None? <==>
            forall t <- tags :: t in sets && !(sets[t].containsIPCIDR && !sets[t].containsNonIPCIDR)
  {
    if tags == [] {
    } else {
      RuleSetsValidIff(sets, tags[1..]);
      assert tags == [tags[0]] + tags[1..];
    }
  }

  /** A tree is accepted if and only if no node of it is unfit. */
  lemma {:induction false} TreeValidIff(sets: RuleSets, rule: Rule)
    ensures ValidateTree(sets, rule).Ok? <==> !Somewhere(rule, n => Unfit(n, sets))
    decreases rule, 1
  {
    match rule
    case Default(f) => RuleSetsValidIff(sets, f.ruleSet);
    case Logical(rules, _) => SubRulesValidIff(sets, rules);
    case Unknown =>
  }

  lemma {:induction false} SubRulesValidIff(sets: RuleSets, rules: seq<Rule>)
    ensures ValidateSubRules(sets, rules).Ok? <==> !Anywhere(rules, n => Unfit(n, sets))
    decreases rules, 0
  {
    if rules == [] {
    } else {
      TreeValidIff(sets, rules[0]);
      SubRulesValidIff(sets, rules[1..]);
      assert rules == [rules[0]] + rules[1..];
    }
  }

  /** Rule `k` has the evaluate it needs, among the rules from `i` on or seen before. */
  ghost predicate Supplied(rules: seq<Rule>, i: nat, seenEvaluate: bool, k: nat)
    requires k < |rules|
  {
    Somewhere(rules[k], n => NeedsResponse(n)) ==> seenEvaluate || exists j :: i <= j < k && IsEvaluate(rules[j])
  }

  lemma {:induction false} ValidFromIff(sets: RuleSets, rules: seq<Rule>, i: nat, seenEvaluate: bool)
    requires i <= |rules|
    ensures ValidateFrom(sets, rules, i, seenEvaluate).None? <==>
            forall k :: i <= k < |rules| ==>
              !Somewhere(rules[k], n => Unfit(n, sets)) && Supplied(rules, i, seenEvaluate, k)
    decreases |rules| - i
  {
    if i == |rules| {
    } else {
      var seen := seenEvaluate || IsEvaluate(rules[i]);
      TreeValidIff(sets, rules[i]);
      if ValidateTree(sets, rules[i]).Ok? {
        TreeNeedsResponse(sets, rules[i]);
      }
      ValidFromIff(sets, rules, i + 1, seen);
      forall k | i < k < |rules| ensures Supplied(rules, i, seenEvaluate, k) <==> Supplied(rules, i + 1, seen, k) {
        SuppliedNext(rules, i, seenEvaluate, k);
      }
      assert Supplied(rules, i, seenEvaluate, i) <==> (Somewhere(rules[i], n => NeedsResponse(n)) ==> seenEvaluate);
    }
  }

  lemma SuppliedNext(rules: seq<Rule>, i: nat, seenEvaluate: bool, k: nat)
    requires i < k < |rules|
    ensures Supplied(rules, i, seenEvaluate, k) <==> Supplied(rules, i + 1, seenEvaluate || IsEvaluate(rules[i]), k)
  {
  }

  /** The validator accepts a list if and only if no node of it is unfit and every rule that needs a
      response comes after a top-level evaluate. */
  lemma ValidateIff(sets: RuleSets, rules: seq<Rule>)
    ensures Validate(sets, rules).None? <==>
            && !Anywhere(rules, n => Unfit(n, sets))
            && forall k :: 0 <= k < |rules| && Somewhere(rules[k], n => NeedsResponse(n)) ==>
                 exists j :: 0 <= j < k && IsEvaluate(rules[j])
  {
    ValidFromIff(sets, rules, 0, false);
    if Anywhere(rules, n => Unfit(n, sets)) {
      var r :| r in rules && Somewhere(r, n => Unfit(n, sets));
      var k :| 0 <= k < |rules| && rules[k] == r;
    } else {
      forall k | 0 <= k < |rules| ensures !Somewhere(rules[k], n => Unfit(n, sets)) {
        assert rules[k] in rules;
      }
    }
    assert forall k :: 0 <= k < |rules| ==>
             (Supplied(rules, 0, false, k) <==>
                (Somewhere(rules[k], n => NeedsResponse(n)) ==> exists j :: 0 <= j < k && IsEvaluate(rules[j])));
  }
}
