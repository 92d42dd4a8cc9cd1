/**
 Rule-set updates of a running DNS router.  The interpreter is fixed when the
 router starts; an update of a rule-set's metadata is validated against it and
 installed if accepted.
 */
module RuleSetUpdates {
  import opened Wrappers
  import opened DnsRules

  datatype Router = Router(sets: RuleSets, started: bool, legacy: bool, closing: bool)

  datatype Event =
    | Update(tag: string, metadata: Metadata)
    | Start
    | Close

  /** buildRules: the mode to start in. */
  function Build(sets: RuleSets, rules: seq<Rule>): Result<bool, Error> {
    match ResolveKnown(sets, rules)
    case Err(e) => Err(e)
    case Ok(mode) =>
      if mode.legacy then Ok(true)
      else
        match Validate(sets, rules)
        case Some(e) => Err(e)
        case None => Ok(false)
  }

  /** ValidateRuleSetMetadataUpdate returns no error. */
  predicate Accepts(rules: seq<Rule>, r: Router, tag: string, metadata: Metadata) {
    if rules == [] || r.closing then true
    else
      var overrides := map[tag := metadata];
      match Resolve(r.sets, rules, overrides)
      case Err(_) => false
      case Ok(candidate) =>
        if !r.started then
          candidate.legacy || Validate(r.sets + overrides, rules).None?
        else if r.legacy then
          candidate.legacy || !candidate.flags.disabled
        else
          !candidate.legacy && Validate(r.sets + overrides, rules).None?
  }

  function Next(rules: seq<Rule>, r: Router, e: Event): Router {
    match e
    case Update(tag, m) => if Accepts(rules, r, tag, m) then r.(sets := r.sets[tag := m]) else r
    case Start =>
      if r.closing || r.started then r
      else
        var built := Build(r.sets, rules);
        if built.Ok? then r.(started := true, legacy := built.value) else r
    case Close => r.(closing := true)
  }

  function Run(rules: seq<Rule>, r: Router, events: seq<Event>): Router
    decreases |events|
  {
    if events == [] then r else Run(rules, Next(rules, r, events[0]), events[1..])
  }

  /** The mode the router runs in is still right for the rule-sets it has now. */
  ghost predicate ModeHolds(rules: seq<Rule>, r: Router) {
    r.started && !r.closing ==>
      var now := ResolveKnown(r.sets, rules);
      && now.Ok?
      && (r.legacy ==> !now.value.flags.disabled)
      && (!r.legacy ==> !now.value.legacy && Validate(r.sets, rules).None?)
  }

  /** An accepted override is judged exactly as the installed metadata will be. */
  lemma OverrideIsInstall(rules: seq<Rule>, sets: RuleSets, tag: string, m: Metadata)
    ensures Resolve(sets, rules, map[tag := m]) == ResolveKnown(sets[tag := m], rules)
    ensures Validate(sets + map[tag := m], rules) == Validate(sets[tag := m], rules)
  {
    assert sets + map[tag := m] == sets[tag := m];
  }

  lemma ModeStep(rules: seq<Rule>, r: Router, e: Event)
    requires ModeHolds(rules, r)
    ensures ModeHolds(rules, Next(rules, r, e))
  {
    match e
    case Update(tag, m) => OverrideIsInstall(rules, r.sets, tag, m);
    case Start =>
    case Close =>
  }

  lemma {:induction false} ModeRun(rules: seq<Rule>, r: Router, events: seq<Event>)
    requires ModeHolds(rules, r)
    ensures ModeHolds(rules, Run(rules, r, events))
    decreases |events|
  {
    if events == [] {
    } else {
      ModeStep(rules, r, events[0]);
      ModeRun(rules, Next(rules, r, events[0]), events[1..]);
    }
  }

  /** Over any sequence of updates, starts and closes, the mode fixed at Start stays valid: a legacy
      router never meets a feature of the new interpreter, and a new-style router never
      meets a strategy and keeps an evaluate before every use of a response. */
  lemma ModeStaysValid(rules: seq<Rule>, r: Router, events: seq<Event>)
    requires !r.started
    ensures var now := Run(rules, r, events);
            now.started && !now.closing ==>
              && (now.legacy ==> !Anywhere(rules, n => UsesNewFeature(n, now.sets)))
              && (!now.legacy ==> !Anywhere(rules, n => HasStrategy(n)))
              && (!now.legacy ==> forall k | 0 <= k < |rules| && Somewhere(rules[k], n => NeedsResponse(n)) ::
                    exists j :: 0 <= j < k && IsEvaluate(rules[j]))
  {
    ModeRun(rules, r, events);
    var now := Run(rules, r, events);
    if now.started && !now.closing {
      ResolveExact(now.sets, rules);
      if !now.legacy {
        NewModeHasNoStrategy(now.sets, rules);
        forall k | 0 <= k < |rules| && Somewhere(rules[k], n => NeedsResponse(n))
          ensures exists j :: 0 <= j < k && IsEvaluate(rules[j])
        {
          ValidatedHasEvaluate(now.sets, rules, k);
        }
      }
    }
  }

  // ------------------------------------------------- exactly what is built and accepted

  ghost predicate Uses(rules: seq<Rule>, sets: RuleSets) {
    Anywhere(rules, n => UsesNewFeature(n, sets))
  }

  ghost predicate Needs(rules: seq<Rule>, sets: RuleSets) {
    Anywhere(rules, n => NeedsLegacy(n, sets))
  }

  ghost predicate Resolvable(rules: seq<Rule>, sets: RuleSets) {
    && !Anywhere(rules, n => RefersToMissing(n, sets))
    && !(Uses(rules, sets) && Anywhere(rules, n => HasStrategy(n)))
  }

  /** A router starts if and only if its rules resolve and, unless they need the legacy mode and use
      nothing new, validate. */
  lemma BuildIff(sets: RuleSets, rules: seq<Rule>, legacy: bool)
    ensures Build(sets, rules) == Ok(legacy) <==>
            && Resolvable(rules, sets)
            && (legacy <==> Needs(rules, sets) && !Uses(rules, sets))
            && (!legacy ==> Validate(sets, rules).None?)
  {
    ResolveExact(sets, rules);
  }

  /** An update is accepted if and only if the rules resolve with it and: a legacy router meets nothing
      new; a new-style router does not fall back and still validates; a router that has not started
      could start. */
  lemma AcceptsIff(rules: seq<Rule>, r: Router, tag: string, m: Metadata)
    ensures rules == [] || r.closing ==> Accepts(rules, r, tag, m)
    ensures rules != [] && !r.closing ==>
              var sets := r.sets[tag := m];
              var falls := Needs(rules, sets) && !Uses(rules, sets);
              Accepts(rules, r, tag, m) <==>
                && Resolvable(rules, sets)
                && if r.started && r.legacy then !Uses(rules, sets)
                   else if r.started then !falls && Validate(sets, rules).None?
                   else falls || Validate(sets, rules).None?
  {
    OverrideIsInstall(rules, r.sets, tag, m);
    ResolveExact(r.sets[tag := m], rules);
  }

  /** Start fixes the mode once; Close only closes; an update is installed exactly if accepted. */
  lemma NextIs(rules: seq<Rule>, r: Router, e: Event)
    ensures var r' := Next(rules, r, e);
            match e
            case Update(tag, m) => r' == if Accepts(rules, r, tag, m) then r.(sets := r.sets[tag := m]) else r
            case Close => r' == r.(closing := true)
            case Start =>
              if r.started || r.closing || Build(r.sets, rules).Err? then r' == r
              else r' == r.(started := true, legacy := Needs(rules, r.sets) && !Uses(rules, r.sets))
  {
    ResolveExact(r.sets, rules);
  }

  // --------------------------------------------------------- overlapping updates

  /** Metadata put together from two rule-set tables. */
  ghost predicate Blend(known: RuleSets, a: RuleSets, b: RuleSets) {
    && a.Keys + b.Keys <= known.Keys
    && forall t <- known :: (t in a && a[t] == known[t]) || (t in b && b[t] == known[t])
  }

  /** A blend brings in no new feature that neither of its parts brings in. */
  lemma BlendIsClean(rules: seq<Rule>, known: RuleSets, a: RuleSets, b: RuleSets)
    requires Blend(known, a, b)
    ensures Anywhere(rules, n => UsesNewFeature(n, known)) ==>
              Anywhere(rules, n => UsesNewFeature(n, a)) || Anywhere(rules, n => UsesNewFeature(n, b))
    ensures Anywhere(rules, n => RefersToMissing(n, known)) ==> Anywhere(rules, n => RefersToMissing(n, a))
  {
    if Anywhere(rules, n => UsesNewFeature(n, known)) {
      AnywhereMonotone(rules, n => UsesNewFeature(n, known), n => UsesNewFeature(n, a), n => UsesNewFeature(n, b));
    }
    if Anywhere(rules, n => RefersToMissing(n, known)) {
      AnywhereMonotone(rules, n => RefersToMissing(n, known), n => RefersToMissing(n, a), n => false);
      NowhereFalse(rules);
    }
  }

  /** Two rule-sets may validate before either installs.  For a legacy router the updates
      still cannot bring in a new feature together that neither brings in alone. */
  lemma LegacySurvivesOverlap(rules: seq<Rule>, r: Router, tag1: string, m1: Metadata, tag2: string, m2: Metadata)
    requires rules != [] && r.started && r.legacy && !r.closing && ModeHolds(rules, r)
    requires Accepts(rules, r, tag1, m1) && Accepts(rules, r, tag2, m2)
    ensures ModeHolds(rules, r.(sets := r.sets[tag1 := m1][tag2 := m2]))
  {
    var s1, s2, s12 := r.sets[tag1 := m1], r.sets[tag2 := m2], r.sets[tag1 := m1][tag2 := m2];
    OverrideIsInstall(rules, r.sets, tag1, m1);
    OverrideIsInstall(rules, r.sets, tag2, m2);
    ResolveExact(s1, rules);
    ResolveExact(s2, rules);
    ResolveExact(s12, rules);
    BlendIsClean(rules, s12, s1, s2);
  }

  lemma {:induction false} BlendRuleSets(known: RuleSets, a: RuleSets, b: RuleSets, tags: seq<string>)
    requires Blend(known, a, b) && ValidateRuleSets(a, tags).None? && ValidateRuleSets(b, tags).None?
    ensures ValidateRuleSets(known, tags).None?
  {
    if tags == [] {
    } else {
      BlendRuleSets(known, a, b, tags[1..]);
    }
  }

  lemma {:induction false} BlendTree(known: RuleSets, a: RuleSets, b: RuleSets, rule: Rule)
    requires Blend(known, a, b) && ValidateTree(a, rule).Ok? && ValidateTree(b, rule).Ok?
    ensures ValidateTree(known, rule) == ValidateTree(a, rule)
    decreases rule, 1
  {
    match rule
    case Default(f) => if !f.matchResponse { BlendRuleSets(known, a, b, f.ruleSet); }
    case Logical(rules, _) => BlendSubRules(known, a, b, rules);
    case Unknown =>
  }

  lemma {:induction false} BlendSubRules(known: RuleSets, a: RuleSets, b: RuleSets, rules: seq<Rule>)
    requires Blend(known, a, b) && ValidateSubRules(a, rules).Ok? && ValidateSubRules(b, rules).Ok?
    ensures ValidateSubRules(known, rules) == ValidateSubRules(a, rules)
    decreases rules, 0
  {
    if rules == [] {
    } else {
      BlendTree(known, a, b, rules[0]);
      BlendSubRules(known, a, b, rules[1..]);
    }
  }

  lemma {:induction false} BlendValidates(known: RuleSets, a: RuleSets, b: RuleSets, rules: seq<Rule>, i: nat,
                                          seen: bool)
    requires Blend(known, a, b) && i <= |rules|
    requires ValidateFrom(a, rules, i, seen).None? && ValidateFrom(b, rules, i, seen).None?
    ensures ValidateFrom(known, rules, i, seen).None?
    decreases |rules| - i
  {
    if i < |rules| {
      BlendTree(known, a, b, rules[i]);
      BlendValidates(known, a, b, rules, i + 1, seen || IsEvaluate(rules[i]));
    }
  }

  /** A new-style router survives two overlapping updates if and only if, with both in place,
      some rule still uses a new feature or no rule needs the legacy mode. */
  lemma NewModeOverlapIff(rules: seq<Rule>, r: Router, tag1: string, m1: Metadata, tag2: string, m2: Metadata)
    requires rules != [] && r.started && !r.legacy && !r.closing && ModeHolds(rules, r)
    requires Accepts(rules, r, tag1, m1) && Accepts(rules, r, tag2, m2)
    ensures var both := r.sets[tag1 := m1][tag2 := m2];
            ModeHolds(rules, r.(sets := both)) <==>
              || Anywhere(rules, n => UsesNewFeature(n, both))
              || !Anywhere(rules, n => NeedsLegacy(n, both))
  {
    var s1, s2, s12 := r.sets[tag1 := m1], r.sets[tag2 := m2], r.sets[tag1 := m1][tag2 := m2];
    OverrideIsInstall(rules, r.sets, tag1, m1);
    OverrideIsInstall(rules, r.sets, tag2, m2);
    NewModeHasNoStrategy(s1, rules);
    ResolveExact(s1, rules);
    ResolveExact(s12, rules);
    BlendIsClean(rules, s12, s1, s2);
    BlendValidates(s12, s1, s2, rules, 0, false);
  }

  /** `whole` is put together from its parts, and they agree with it. */
  ghost predicate Joins(whole: RuleSets, a: RuleSets, b: RuleSets) {
    && (forall t <- a :: t in whole && whole[t] == a[t])
    && (forall t <- b :: t in whole && whole[t] == b[t])
    && (forall t <- whole :: t in a || t in b)
  }

  lemma PartsOfUses(rules: seq<Rule>, whole: RuleSets, a: RuleSets, b: RuleSets)
    requires Joins(whole, a, b)
    ensures Uses(rules, whole) <==> Uses(rules, a) || Uses(rules, b)
  {
    var pa, pb, pw := n => UsesNewFeature(n, a), n => UsesNewFeature(n, b), n => UsesNewFeature(n, whole);
    if Anywhere(rules, pw) {
      AnywhereMonotone(rules, pw, pa, pb);
    }
    if Anywhere(rules, pa) {
      AnywhereMonotone(rules, pa, pw, pw);
    }
    if Anywhere(rules, pb) {
      AnywhereMonotone(rules, pb, pw, pw);
    }
  }

  lemma PartsOfNeeds(rules: seq<Rule>, whole: RuleSets, a: RuleSets, b: RuleSets)
    requires Joins(whole, a, b)
    ensures Needs(rules, whole) <==> Needs(rules, a) || Needs(rules, b)
  {
    var pa, pb, pw := n => NeedsLegacy(n, a), n => NeedsLegacy(n, b), n => NeedsLegacy(n, whole);
    if Anywhere(rules, pw) {
      AnywhereMonotone(rules, pw, pa, pb);
    }
    if Anywhere(rules, pa) {
      AnywhereMonotone(rules, pa, pw, pw);
    }
    if Anywhere(rules, pb) {
      AnywhereMonotone(rules, pb, pw, pw);
    }
  }

  /** Updates of different rule-sets: what the rules use or need afterwards comes from one of the
      updates, seen without the rule-set of the other. */
  lemma OverlapParts(rules: seq<Rule>, sets: RuleSets, tag1: string, m1: Metadata, tag2: string, m2: Metadata)
    requires tag1 != tag2
    ensures var both := sets[tag1 := m1][tag2 := m2];
            var part1, part2 := sets[tag1 := m1] - {tag2}, sets[tag2 := m2] - {tag1};
            && (Uses(rules, both) <==> Uses(rules, part1) || Uses(rules, part2))
            && (Needs(rules, both) <==> Needs(rules, part1) || Needs(rules, part2))
  {
    var both := sets[tag1 := m1][tag2 := m2];
    var part1, part2 := sets[tag1 := m1] - {tag2}, sets[tag2 := m2] - {tag1};
    PartsOfUses(rules, both, part1, part2);
    PartsOfNeeds(rules, both, part1, part2);
  }

  /** With these rule-sets some rule needs the legacy mode and the only new features come from `other`. */
  ghost predicate LeansOn(rules: seq<Rule>, sets: RuleSets, other: string) {
    Needs(rules, sets - {other}) && Uses(rules, sets) && !Uses(rules, sets - {other})
  }

  /** An update a new-style router accepts leaves a new feature wherever it leaves a need. */
  lemma AcceptedNeedsUse(rules: seq<Rule>, r: Router, tag: string, m: Metadata)
    requires rules != [] && r.started && !r.legacy && !r.closing && Accepts(rules, r, tag, m)
    ensures Needs(rules, r.sets[tag := m]) ==> Uses(rules, r.sets[tag := m])
  {
    OverrideIsInstall(rules, r.sets, tag, m);
    ResolveExact(r.sets[tag := m], rules);
  }

  /** The same in terms of each update alone: the router breaks if and only if one of them keeps the
      new mode only thanks to the old metadata of the rule-set the other replaces, and the other
      leaves no new feature.  Two updates of one rule-set never break it. */
  lemma NewModeOverlapByUpdate(rules: seq<Rule>, r: Router, tag1: string, m1: Metadata, tag2: string, m2: Metadata)
    requires rules != [] && r.started && !r.legacy && !r.closing && ModeHolds(rules, r)
    requires Accepts(rules, r, tag1, m1) && Accepts(rules, r, tag2, m2)
    ensures var s1, s2 := r.sets[tag1 := m1], r.sets[tag2 := m2];
            !ModeHolds(rules, r.(sets := s1[tag2 := m2])) <==>
              && tag1 != tag2
              && (|| (LeansOn(rules, s1, tag2) && !Uses(rules, s2 - {tag1}))
                  || (LeansOn(rules, s2, tag1) && !Uses(rules, s1 - {tag2})))
  {
    var s1, s2 := r.sets[tag1 := m1], r.sets[tag2 := m2];
    NewModeOverlapIff(rules, r, tag1, m1, tag2, m2);
    AcceptedNeedsUse(rules, r, tag1, m1);
    AcceptedNeedsUse(rules, r, tag2, m2);
    if tag1 == tag2 {
      assert s1[tag2 := m2] == s2;
    } else {
      OverlapParts(rules, r.sets, tag1, m1, tag2, m2);
      assert Joins(s1, s1 - {tag2}, s1);
      PartsOfNeeds(rules, s1, s1 - {tag2}, s1);
      assert Joins(s2, s2 - {tag1}, s2);
      PartsOfNeeds(rules, s2, s2 - {tag1}, s2);
    }
  }

  /** Start reads the metadata before it fixes the mode.  An update judged before that and installed
      after leaves the mode right if and only if it resolves to what that mode can bear. */
  lemma StartRaceIff(rules: seq<Rule>, r: Router, tag: string, m: Metadata)
    requires !r.started && !r.closing && Build(r.sets, rules).Ok? && Accepts(rules, r, tag, m)
    ensures var late := Next(rules, r, Start).(sets := r.sets[tag := m]);
            ModeHolds(rules, late) <==>
              if late.legacy then !Uses(rules, late.sets) else Needs(rules, late.sets) ==> Uses(rules, late.sets)
  {
    var late := Next(rules, r, Start).(sets := r.sets[tag := m]);
    OverrideIsInstall(rules, r.sets, tag, m);
    ResolveExact(late.sets, rules);
  }

  const PLAIN := Metadata(false, true, false)
  const MIXED_IP := Metadata(true, true, false)
  const QUERY_TYPE := Metadata(false, true, true)

  function TwoSetRule(): Rule {
    Default(DefaultRule(false, 0, false, false, None, 0, 0, 0, 0, 0, ["a", "b"], false, false,
                        Route("server", RouteOptions(AsIS, false, false, None, None), false)))
  }

  lemma {:induction false} ValidRuleSets(sets: RuleSets, tags: seq<string>)
    requires forall t <- tags :: t in sets && (sets[t].containsIPCIDR ==> sets[t].containsNonIPCIDR)
    ensures ValidateRuleSets(sets, tags).None?
  {
    if tags == [] {
    } else {
      ValidRuleSets(sets, tags[1..]);
    }
  }

  lemma FlagsOfTwoSetRule(sets: RuleSets)
    requires "a" in sets && "b" in sets
    requires forall t <- ["a", "b"] :: sets[t].containsIPCIDR ==> sets[t].containsNonIPCIDR
    ensures var a, b := sets["a"], sets["b"];
            var r := ResolveKnown(sets, [TwoSetRule()]);
            && r.Ok? && Validate(sets, [TwoSetRule()]).None?
            && (r.value.flags.disabled <==> a.containsQueryType || b.containsQueryType)
            && (r.value.legacy <==> !r.value.flags.disabled && (a.containsIPCIDR || b.containsIPCIDR))
  {
    var rule := TwoSetRule();
    var f, tags := rule.fields, rule.fields.ruleSet;
    assert tags[0] == "a" && tags[1] == "b" && forall t <- tags :: t == "a" || t == "b";
    RuleSetFlagsExact(sets, f, tags);
    ValidRuleSets(sets, tags);
    assert [rule][1..] == [];
    assert RulesFlags(sets, [rule][1..]) == Ok(Flags(false, false, false));
    assert RulesFlags(sets, [rule]).Ok?;
    assert ValidateFrom(sets, [rule], 1, false).None?;
    assert ValidateTree(sets, rule) == Ok(false);
  }

  /** It need not: here each update is accepted on its own, and together they leave a
      new-style router with rules that resolve to the legacy mode. */
  lemma NewModeBreaksUnderOverlap()
    ensures var r := Router(map["a" := QUERY_TYPE, "b" := PLAIN], true, false, false);
            var rules := [TwoSetRule()];
            && ModeHolds(rules, r)
            && Accepts(rules, r, "a", PLAIN) && Accepts(rules, r, "b", MIXED_IP)
            && !ModeHolds(rules, r.(sets := r.sets["a" := PLAIN]["b" := MIXED_IP]))
  {
    var sets: RuleSets := map["a" := QUERY_TYPE, "b" := PLAIN];
    var rules := [TwoSetRule()];
    FlagsOfTwoSetRule(sets);
    FlagsOfTwoSetRule(sets["a" := PLAIN]);
    FlagsOfTwoSetRule(sets["b" := MIXED_IP]);
    FlagsOfTwoSetRule(sets["a" := PLAIN]["b" := MIXED_IP]);
    OverrideIsInstall(rules, sets, "a", PLAIN);
    OverrideIsInstall(rules, sets, "b", MIXED_IP);
  }

  /** Here an update accepted before the start leaves a legacy router with a rule of the new kind. */
  lemma StartRaceBreaks()
    ensures var r := Router(map["a" := PLAIN, "b" := MIXED_IP], false, false, false);
            var rules := [TwoSetRule()];
            && Build(r.sets, rules) == Ok(true) && Accepts(rules, r, "a", QUERY_TYPE)
            && !ModeHolds(rules, Next(rules, r, Start).(sets := r.sets["a" := QUERY_TYPE]))
  {
    var sets: RuleSets := map["a" := PLAIN, "b" := MIXED_IP];
    var rules := [TwoSetRule()];
    FlagsOfTwoSetRule(sets);
    FlagsOfTwoSetRule(sets["a" := QUERY_TYPE]);
    OverrideIsInstall(rules, sets, "a", QUERY_TYPE);
  }
}
