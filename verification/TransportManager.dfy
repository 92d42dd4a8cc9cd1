/**
 The DNS transport manager: the list and the index of transports kept in step by
 Create and Remove, the start-up scheduler over the dependency graph, and the
 diagnosis it gives when it stalls.
 */
module TransportManager {
  import opened Wrappers
  import opened TransportGraph

  datatype StartOutcome =
    | Started
    | StartFailed(failed: Transport)
    | Circular(tree: seq<string>, repeated: string)
    | NotFound(missing: string, server: string)
    | Crashed          // the search for an unstarted transport came back empty

  datatype CreateError = EmptyTag | NotCreated | StageFailed | CloseFailed | DefaultIsFakeIP | SecondFakeIP

  datatype RemoveError = UnknownTag | NextDefaultRefused | DependedBy(tags: seq<string>)

  /** The list and the index hold the same transports. */
  ghost predicate Agree(ts: seq<Transport>, byTag: map<string, Transport>) {
    && DistinctTags(ts)
    && byTag.Keys == Tags(ts)
    && forall t <- ts :: byTag[t.tag] == t
  }

  /** The index knows every tag of the list, and leads to a transport of the list with that tag.  This
      is all that is left of agreement when two transports share a tag. */
  ghost predicate Indexed(ts: seq<Transport>, byTag: map<string, Transport>) {
    byTag.Keys == Tags(ts) && forall tag <- byTag :: byTag[tag] in ts && byTag[tag].tag == tag
  }

  lemma AgreeIsIndexed(ts: seq<Transport>, byTag: map<string, Transport>)
    requires Agree(ts, byTag)
    ensures Indexed(ts, byTag)
  {
    forall tag <- byTag ensures byTag[tag] in ts && byTag[tag].tag == tag {
      var t :| t in ts && t.tag == tag;
    }
  }

  predicate Ready(t: Transport, started: set<string>) {
    forall d <- t.dependencies :: d in started
  }

  // ------------------------------------------------------------- the diagnosis

  /** common.Find: the first unstarted dependency, or the empty tag if there is none. */
  function FindUnstarted(dependencies: seq<string>, started: set<string>): (tag: string)
    ensures (exists d <- dependencies :: d !in started) ==> tag in dependencies && tag !in started
    ensures (forall d <- dependencies :: d in started) ==> tag == ""
  {
    if dependencies == [] then ""
    else if dependencies[0] !in started then dependencies[0]
    else
      assert dependencies == [dependencies[0]] + dependencies[1..];
      FindUnstarted(dependencies[1..], started)
  }

  /** Nothing more can be started. */
  ghost predicate Stalled(ts: seq<Transport>, started: set<string>) {
    forall t <- ts :: t.tag in started || !Ready(t, started)
  }

  ghost predicate NoRepeat(tree: seq<string>) {
    forall i, j :: 0 <= i < j < |tree| ==> tree[i] != tree[j]
  }

  function Elements(tree: seq<string>): set<string> {
    set s <- tree
  }

  /** A path of unstarted transports, without repetition, that ends at `current`. */
  ghost predicate LintTree(ts: seq<Transport>, started: set<string>, tree: seq<string>, current: Transport) {
    && IsPath(ts, tree) && NoRepeat(tree) && tree[|tree| - 1] == current.tag
    && current in ts
    && Elements(tree) <= Tags(ts) - started
  }

  /** A diagnosis that points at a real problem of the graph: a path of distinct tags that starts with
      `tree` and runs into itself, or a dependency that does not exist; nothing it names is started. */
  ghost predicate RealProblem(ts: seq<Transport>, started: set<string>, tree: seq<string>, o: StartOutcome) {
    match o
    case Circular(path, tag) =>
      && tree <= path && IsPath(ts, path) && NoRepeat(path) && Elements(path) !! started
      && tag in path && Edge(ts, path[|path| - 1], tag)
    case NotFound(missing, server) =>
      Edge(ts, server, missing) && missing !in Tags(ts) && missing !in started && server !in started
    case _ => false
  }

  /** lintTransport.  It ends because the tree grows by known tags only. */
  function Lint(ghost ts: seq<Transport>, byTag: map<string, Transport>, started: set<string>,
                tree: seq<string>, current: Transport): (o: StartOutcome)
    requires Indexed(ts, byTag) && Stalled(ts, started) && LintTree(ts, started, tree, current)
    ensures RealProblem(ts, started, tree, o)
    decreases byTag.Keys - Elements(tree)
  {
    var problem := FindUnstarted(current.dependencies, started);
    assert problem in current.dependencies && problem !in started;
    assert Edge(ts, current.tag, problem);
    if problem in tree then Circular(tree, problem)
    else if problem !in byTag then NotFound(problem, current.tag)
    else
      LintExtends(ts, byTag, started, tree, current, problem);
      Lint(ts, byTag, started, tree + [problem], byTag[problem])
  }

  lemma LintExtends(ts: seq<Transport>, byTag: map<string, Transport>, started: set<string>,
                    tree: seq<string>, current: Transport, problem: string)
    requires Indexed(ts, byTag) && LintTree(ts, started, tree, current)
    requires Edge(ts, current.tag, problem) && problem !in started && problem !in tree && problem in byTag
    ensures LintTree(ts, started, tree + [problem], byTag[problem])
    ensures byTag.Keys - Elements(tree + [problem]) < byTag.Keys - Elements(tree)
  {
    var longer := tree + [problem];
    assert forall i :: 0 <= i < |longer| - 1 ==> longer[i] == tree[i];
    assert Elements(longer) == Elements(tree) + {problem};
    assert problem in byTag.Keys - Elements(tree);
  }

  // ------------------------------------------------------------- the scheduler

  /** Progress of the scheduler: what has been started, in which order. */
  ghost predicate Progress(ts: seq<Transport>, started: set<string>, order: seq<Transport>) {
    && DependencyOrder(order)
    && started == Tags(order)
    && (forall t <- order :: t in ts)
  }

  lemma ProgressStep(ts: seq<Transport>, started: set<string>, order: seq<Transport>, t: Transport)
    requires Progress(ts, started, order) && t in ts && t.tag !in started && Ready(t, started)
    ensures Progress(ts, started + {t.tag}, order + [t])
  {
    var longer := order + [t];
    assert Tags(longer) == Tags(order) + {t.tag};
    forall k | 0 <= k < |longer| ensures forall d <- longer[k].dependencies :: d in Tags(longer[..k]) {
      assert longer[..k] == order[..k];
      if k == |order| { assert order[..k] == order; }
    }
  }

  lemma ProgressBound(ts: seq<Transport>, started: set<string>, order: seq<Transport>)
    requires Progress(ts, started, order)
    ensures started <= Tags(ts) && |started| <= |Tags(ts)| <= |ts|
    ensures |started| == |ts| ==> DistinctTags(ts) && Covers(order, ts)
  {
    AtMostTags(ts);
    assert started <= Tags(ts);
    SubsetCount(started, Tags(ts));
    if |started| == |ts| {
      FullSubset(started, Tags(ts));
      forall t <- ts ensures t in order {
        assert t.tag in Tags(order);
        var u :| u in order && u.tag == t.tag;
      }
    }
  }

  method IsReady(t: Transport, started: set<string>) returns (ready: bool)
    ensures ready <==> Ready(t, started)
  {
    for i := 0 to |t.dependencies|
      invariant forall k :: 0 <= k < i ==> t.dependencies[k] in started
    {
      if t.dependencies[i] !in started {
        return false;
      }
    }
    return true;
  }

  /** One round over the list.  It makes progress unless the graph is stalled. */
  method StartRound(ts: seq<Transport>, startOk: Transport -> bool, started0: set<string>, order0: seq<Transport>)
    returns (started: set<string>, order: seq<Transport>, failed: Option<Transport>)
    requires Progress(ts, started0, order0) && forall t <- order0 :: startOk(t)
    ensures Progress(ts, started, order) && order0 <= order
    ensures failed.None? ==> (forall t <- order :: startOk(t)) && (started == started0 ==> Stalled(ts, started))
    ensures failed.None? && started != started0 ==> started0 < started
    ensures failed.Some? ==>
              failed.value in ts && !startOk(failed.value) && order != [] && order[|order| - 1] == failed.value
  {
    started, order, failed := started0, order0, None;
    for i := 0 to |ts|
      invariant Progress(ts, started, order) && order0 <= order && started0 <= started
      invariant forall t <- order :: startOk(t)
      invariant started == started0 ==> forall k :: 0 <= k < i ==> ts[k].tag in started || !Ready(ts[k], started)
    {
      var t := ts[i];
      if t.tag in started {
        continue;
      }
      var ready := IsReady(t, started);
      if !ready {
        continue;
      }
      ProgressStep(ts, started, order, t);
      started, order := started + {t.tag}, order + [t];
      if !startOk(t) {
        return started, order, Some(t);
      }
    }
  }

  /** startTransports.  With `startOk` the result of each individual start: the call returns
      Started if and only if no two transports share a tag, every start succeeds, every dependency
      exists and the graph is acyclic; it has then started each transport once, after all it depends
      on.  Only a list with a repeated tag makes it crash, once it has started something for each tag. */
  method StartTransports(ts: seq<Transport>, byTag: map<string, Transport>, startOk: Transport -> bool)
    returns (order: seq<Transport>, outcome: StartOutcome)
    requires Indexed(ts, byTag)
    ensures outcome.Started? <==> DistinctTags(ts) && Complete(ts) && Acyclic(ts) && forall t <- ts :: startOk(t)
    ensures DependencyOrder(order) && forall t <- order :: t in ts
    ensures outcome.Started? ==> Covers(order, ts)
    ensures outcome.StartFailed? ==>
              outcome.failed in ts && !startOk(outcome.failed) && order != [] && order[|order| - 1] == outcome.failed
    ensures outcome.Circular? || outcome.NotFound? ==>
              && Stalled(ts, Tags(order)) && (forall t <- order :: startOk(t))
              && exists first <- ts :: RealProblem(ts, Tags(order), [first.tag], outcome)
    ensures outcome.Crashed? ==> !DistinctTags(ts) && Tags(order) == Tags(ts) && forall t <- order :: startOk(t)
  {
    var started: set<string> := {};
    order := [];
    while true
      invariant Progress(ts, started, order) && forall t <- order :: startOk(t)
      decreases |ts| - |started|
    {
      var before := started;
      var failed;
      started, order, failed := StartRound(ts, startOk, started, order);
      ProgressBound(ts, started, order);
      if failed.Some? {
        return order, StartFailed(failed.value);
      }
      if |started| == |ts| {
        OrderedIsSound(order, ts);
        return order, Started;
      }
      if started != before {
        StrictSubsetCount(before, started);
        continue;
      }
      var current := FindNotStarted(ts, started);
      if current.None? {
        AllStarted(ts, started);
        return order, Crashed;
      }
      assert [current.value.tag][0] == current.value.tag;
      outcome := Lint(ts, byTag, started, [current.value.tag], current.value);
      RefuteGraph(ts, started, [current.value.tag], outcome);
      return;
    }
  }

  lemma StrictSubsetCount(a: set<string>, b: set<string>)
    requires a < b
    ensures |a| < |b|
  {
    var x :| x in b && x !in a;
    SubsetCount(a, b - {x});
  }

  /** Something is started for every tag, yet fewer tags than transports: some tag repeats. */
  lemma AllStarted(ts: seq<Transport>, started: set<string>)
    requires started <= Tags(ts) && |started| != |ts| && forall t <- ts :: t.tag in started
    ensures started == Tags(ts) && !DistinctTags(ts)
  {
    assert started == Tags(ts);
    if DistinctTags(ts) {
      TagCount(ts);
    }
  }

  /** common.Find over the list. */
  method FindNotStarted(ts: seq<Transport>, started: set<string>) returns (t: Option<Transport>)
    ensures t.Some? ==> t.value in ts && t.value.tag !in started
    ensures t.None? ==> forall u <- ts :: u.tag in started
  {
    for i := 0 to |ts|
      invariant forall k :: 0 <= k < i ==> ts[k].tag in started
    {
      if ts[i].tag !in started {
        return Some(ts[i]);
      }
    }
    return None;
  }

  lemma RefuteGraph(ts: seq<Transport>, started: set<string>, tree: seq<string>, o: StartOutcome)
    requires RealProblem(ts, started, tree, o)
    ensures !(Complete(ts) && Acyclic(ts))
  {
    if o.Circular? {
      RepeatIsCycle(ts, o.tree, o.repeated);
    } else {
      var t :| t in ts && t.tag == o.server && o.missing in t.dependencies;
    }
  }

  // --------------------------------------------------------- the reverse index

  function DependBy(index: map<string, seq<string>>, tag: string): seq<string> {
    if tag in index then index[tag] else []
  }

  function Depend(index: map<string, seq<string>>, dependencies: seq<string>, tag: string): map<string, seq<string>> {
    if dependencies == [] then index
    else
      var earlier := Depend(index, dependencies[..|dependencies| - 1], tag);
      var d := dependencies[|dependencies| - 1];
      earlier[d := DependBy(earlier, d) + [tag]]
  }

  function Filter(tags: seq<string>, tag: string): seq<string> {
    if tags == [] then []
    else if tags[0] == tag then Filter(tags[1..], tag)
    else [tags[0]] + Filter(tags[1..], tag)
  }

  /** A single entry is dropped without looking at it. */
  function Unlist(index: map<string, seq<string>>, d: string, tag: string): map<string, seq<string>> {
    if |DependBy(index, d)| == 1 then index - {d}
    else index[d := Filter(DependBy(index, d), tag)]
  }

  function Undepend(index: map<string, seq<string>>, dependencies: seq<string>, tag: string): map<string, seq<string>> {
    if dependencies == [] then index
    else Unlist(Undepend(index, dependencies[..|dependencies| - 1], tag), dependencies[|dependencies| - 1], tag)
  }

  /** The index is the exact reverse of the declared dependencies. */
  ghost predicate Exact(ts: seq<Transport>, index: map<string, seq<string>>) {
    forall d: string, u: string :: u in DependBy(index, d) <==> Edge(ts, u, d)
  }

  // ----------------------------------------------------------------- the object

  function Without(ts: seq<Transport>, tag: string): seq<Transport> {
    if ts == [] then []
    else if ts[0].tag == tag then Without(ts[1..], tag)
    else [ts[0]] + Without(ts[1..], tag)
  }

  /** Cutting out the one transport with a tag. */
  lemma {:induction false} CutIsWithout(ts: seq<Transport>, k: nat)
    requires DistinctTags(ts) && k < |ts|
    ensures ts[..k] + ts[k + 1..] == Without(ts, ts[k].tag)
  {
    if k == 0 {
      WithoutNone(ts[1..], ts[0].tag);
    } else {
      CutIsWithout(ts[1..], k - 1);
      assert ts[..k] + ts[k + 1..] == [ts[0]] + (ts[1..][..k - 1] + ts[1..][k..]);
    }
  }

  lemma {:induction false} WithoutNone(ts: seq<Transport>, tag: string)
    requires forall i :: 0 <= i < |ts| ==> ts[i].tag != tag
    ensures Without(ts, tag) == ts
  {
    if ts == [] {
    } else {
      WithoutNone(ts[1..], tag);
    }
  }

  lemma WithoutUnlisted(ts: seq<Transport>, byTag: map<string, Transport>, tag: string)
    requires Agree(ts, byTag) && tag !in byTag
    ensures Without(ts, tag) == ts
  {
    assert forall i :: 0 <= i < |ts| ==> ts[i] in ts;
    WithoutNone(ts, tag);
  }

  lemma CutMember(ts: seq<Transport>, k: nat, t: Transport)
    requires DistinctTags(ts) && k < |ts|
    ensures t in ts[..k] + ts[k + 1..] <==> t in ts && t != ts[k]
  {
    var cut := ts[..k] + ts[k + 1..];
    if t in ts && t != ts[k] {
      var i :| 0 <= i < |ts| && ts[i] == t;
      assert t == cut[if i < k then i else i - 1];
    }
  }

  lemma CutAgrees(ts: seq<Transport>, byTag: map<string, Transport>, k: nat)
    requires Agree(ts, byTag) && k < |ts|
    ensures Agree(ts[..k] + ts[k + 1..], byTag - {ts[k].tag})
    ensures forall t :: t in ts[..k] + ts[k + 1..] <==> t in ts && t != ts[k]
  {
    var cut := ts[..k] + ts[k + 1..];
    forall t ensures t in cut <==> t in ts && t != ts[k] {
      CutMember(ts, k, t);
    }
    assert Tags(cut) == Tags(ts) - {ts[k].tag};
  }

  lemma AppendAgrees(ts: seq<Transport>, byTag: map<string, Transport>, t: Transport)
    requires Agree(ts, byTag) && t.tag !in byTag
    ensures Agree(ts + [t], byTag[t.tag := t])
  {
    assert Tags(ts + [t]) == Tags(ts) + {t.tag};
    assert forall i :: 0 <= i < |ts| ==> ts[i] in ts && ts[i].tag in Tags(ts);
  }

  lemma AppendIndexed(ts: seq<Transport>, byTag: map<string, Transport>, t: Transport)
    requires Indexed(ts, byTag)
    ensures Indexed(ts + [t], byTag[t.tag := t])
  {
    assert Tags(ts + [t]) == Tags(ts) + {t.tag};
    assert t in ts + [t] && forall u <- ts :: u in ts + [t];
  }

  lemma ClashRepeats(ts: seq<Transport>, byTag: map<string, Transport>, t: Transport)
    requires Agree(ts, byTag) && t.tag in byTag
    ensures !DistinctTags(ts + [t])
  {
    var u :| u in ts && u.tag == t.tag;
    var k :| 0 <= k < |ts| && ts[k] == u;
    assert (ts + [t])[k].tag == (ts + [t])[|ts|].tag;
  }

  lemma Reinserted(byTag: map<string, Transport>, t: Transport)
    ensures (byTag - {t.tag})[t.tag := t] == byTag[t.tag := t]
  {
  }

  /** common.Index over the list; Create and Remove panic when it finds nothing. */
  method IndexOf(ts: seq<Transport>, t: Transport) returns (k: nat)
    requires t in ts
    ensures k < |ts| && ts[k] == t
  {
    k := 0;
    ghost var target :| 0 <= target < |ts| && ts[target] == t;
    while ts[k] != t
      invariant 0 <= k <= target
      decreases target - k
    {
      k := k + 1;
    }
  }

  method ListDependencies(index: map<string, seq<string>>, dependencies: seq<string>, tag: string)
    returns (after: map<string, seq<string>>)
    ensures after == Depend(index, dependencies, tag)
  {
    after := index;
    for i := 0 to |dependencies|
      invariant after == Depend(index, dependencies[..i], tag)
    {
      var d := dependencies[i];
      after := after[d := DependBy(after, d) + [tag]];
      assert dependencies[..i + 1][..i] == dependencies[..i];
    }
    assert dependencies[..|dependencies|] == dependencies;
  }

  method DropDependencies(index: map<string, seq<string>>, dependencies: seq<string>, tag: string)
    returns (after: map<string, seq<string>>)
    ensures after == Undepend(index, dependencies, tag)
  {
    after := index;
    for i := 0 to |dependencies|
      invariant after == Undepend(index, dependencies[..i], tag)
    {
      after := Unlist(after, dependencies[i], tag);
      assert dependencies[..i + 1][..i] == dependencies[..i];
    }
    assert dependencies[..|dependencies|] == dependencies;
  }

  class Manager {
    const defaultTag: string
    var started: bool
    var transports: seq<Transport>
    var transportByTag: map<string, Transport>
    var dependByTag: map<string, seq<string>>
    var defaultTransport: Option<Transport>
    var fakeIPTransport: Option<Transport>

    ghost predicate Valid()
      reads this
    {
      Agree(transports, transportByTag)
    }

    /** Without a configured default there is none only while nothing is registered. */
    ghost predicate DefaultChosen()
      reads this
    {
      defaultTag == "" && defaultTransport.None? ==> transports == []
    }

    constructor (defaultTag: string)
      ensures Valid() && DefaultChosen() && Exact(transports, dependByTag)
      ensures transports == [] && !started && this.defaultTag == defaultTag
    {
      this.defaultTag := defaultTag;
      started, transports, transportByTag, dependByTag := false, [], map[], map[];
      defaultTransport, fakeIPTransport := None, None;
    }

    /** `created` is the registry's answer, `startOk` whether the stages of a late start
        succeed, `closeOk` whether closing a replaced transport does. */
    method Create(tag: string, created: Option<Transport>, startOk: bool, closeOk: bool)
      returns (err: Option<CreateError>)
      requires Valid() && (created.Some? ==> created.value.tag == tag)
      modifies this
      ensures Valid() && started == old(started)
      ensures err.Some? && !err.value.DefaultIsFakeIP? && !err.value.SecondFakeIP? ==>
                && transports == old(transports)
                && transportByTag == old(transportByTag) && dependByTag == old(dependByTag)
      ensures err.None? || err.value.DefaultIsFakeIP? || err.value.SecondFakeIP? ==>
                && created.Some? && tag != ""
                && transports == Without(old(transports), tag) + [created.value]
                && transportByTag == old(transportByTag)[tag := created.value]
                && dependByTag == Depend(old(dependByTag), created.value.dependencies, tag)
      ensures old(DefaultChosen()) && (err.Some? ==> !err.value.DefaultIsFakeIP?) ==> DefaultChosen()
      ensures err == if tag == "" then Some(EmptyTag)
                     else if created.None? then Some(NotCreated)
                     else if started && !startOk then Some(StageFailed)
                     else if started && tag in old(transportByTag) && !closeOk then Some(CloseFailed)
                     else if created.value.kind != FakeIP then None
                     else if tag == defaultTag || (defaultTag == "" && old(defaultTransport).None?) then
                       Some(DefaultIsFakeIP)
                     else if old(fakeIPTransport).Some? then Some(SecondFakeIP)
                     else None
      ensures defaultTransport ==
                if err.None? && created.value.kind != FakeIP &&
                   (tag == defaultTag || (defaultTag == "" && old(defaultTransport).None?)) then created
                else old(defaultTransport)
      ensures fakeIPTransport == if err.None? && created.value.kind == FakeIP then created else old(fakeIPTransport)
    {
      if tag == "" {
        return Some(EmptyTag);
      }
      if created.None? {
        return Some(NotCreated);
      }
      var transport := created.value;
      if started && !startOk {
        return Some(StageFailed);
      }
      if tag in transportByTag && started && !closeOk {
        return Some(CloseFailed);
      }
      Register(transport);
      if tag == defaultTag || (defaultTag == "" && defaultTransport.None?) {
        if transport.kind == FakeIP {
          return Some(DefaultIsFakeIP);
        }
        defaultTransport := Some(transport);
      }
      if transport.kind == FakeIP {
        if fakeIPTransport.Some? {
          return Some(SecondFakeIP);
        }
        fakeIPTransport := Some(transport);
      }
      return None;
    }

    /** A transport with the same tag makes way for the new one. */
    method Register(t: Transport)
      requires Valid()
      modifies this`transports, this`transportByTag, this`dependByTag
      ensures Valid()
      ensures transports == Without(old(transports), t.tag) + [t]
      ensures transportByTag == old(transportByTag)[t.tag := t]
      ensures dependByTag == Depend(old(dependByTag), t.dependencies, t.tag)
    {
      Reinserted(transportByTag, t);
      if t.tag in transportByTag {
        RemoveListed(t.tag);
      } else {
        WithoutUnlisted(transports, transportByTag, t.tag);
      }
      Insert(t);
    }

    /** The replaced transport leaves the list and the index; the search cannot fail. */
    method RemoveListed(tag: string)
      requires Valid() && tag in transportByTag
      modifies this`transports, this`transportByTag
      ensures Valid() && tag !in transportByTag
      ensures transports == Without(old(transports), tag)
      ensures transportByTag == old(transportByTag) - {tag}
    {
      var t :| t in transports && t.tag == tag;
      var k := IndexOf(transports, transportByTag[tag]);
      CutIsWithout(transports, k);
      CutAgrees(transports, transportByTag, k);
      transports := transports[..k] + transports[k + 1..];
      transportByTag := transportByTag - {tag};
    }

    method Insert(t: Transport)
      requires Valid() && t.tag !in transportByTag
      modifies this`transports, this`transportByTag, this`dependByTag
      ensures Valid()
      ensures transports == old(transports) + [t] && transportByTag == old(transportByTag)[t.tag := t]
      ensures dependByTag == Depend(old(dependByTag), t.dependencies, t.tag)
    {
      AppendAgrees(transports, transportByTag, t);
      transports := transports + [t];
      transportByTag := transportByTag[t.tag := t];
      dependByTag := ListDependencies(dependByTag, t.dependencies, t.tag);
    }

    /** Undepend is what a successful removal does to the reverse index. */
    method Remove(tag: string) returns (err: Option<RemoveError>)
      requires Valid()
      modifies this
      ensures Valid() && started == old(started)
      ensures err == Some(UnknownTag) <==> tag !in old(transportByTag)
      ensures tag !in old(transportByTag) ==> transports == old(transports) && transportByTag == old(transportByTag)
      ensures tag in old(transportByTag) ==>
                transports == Without(old(transports), tag) && transportByTag == old(transportByTag) - {tag}
      ensures err.None? ==>
                DependBy(old(dependByTag), tag) == [] &&
                dependByTag == Undepend(old(dependByTag), old(transportByTag)[tag].dependencies, tag)
      ensures err.Some? ==> dependByTag == old(dependByTag)
      ensures fakeIPTransport == old(fakeIPTransport) && (old(DefaultChosen()) ==> DefaultChosen())
      ensures tag in old(transportByTag) ==>
                var wasDefault := old(defaultTransport) == Some(old(transportByTag)[tag]);
                var refused := wasDefault && transports != [] && transports[0].kind != FakeIP;
                && err == (if refused then Some(NextDefaultRefused)
                           else if DependBy(old(dependByTag), tag) != [] then
                             Some(DependedBy(DependBy(old(dependByTag), tag)))
                           else None)
                && defaultTransport == if !wasDefault || refused then old(defaultTransport)
                                       else if transports == [] then None
                                       else Some(transports[0])
      ensures tag !in old(transportByTag) ==> defaultTransport == old(defaultTransport)
    {
      if tag !in transportByTag {
        return Some(UnknownTag);
      }
      var transport := transportByTag[tag];
      RemoveListed(tag);
      if defaultTransport == Some(transport) {
        if |transports| > 0 {
          if transports[0].kind != FakeIP {
            return Some(NextDefaultRefused);
          }
          defaultTransport := Some(transports[0]);
        } else {
          defaultTransport := None;
        }
      }
      var dependBy := DependBy(dependByTag, tag);
      if |dependBy| > 0 {
        return Some(DependedBy(dependBy));
      }
      dependByTag := DropDependencies(dependByTag, transport.dependencies, tag);
      return None;
    }

    /** The first half of Start: a fallback stands in for a missing default.  The list and the
        index stay in step if and only if the tag of the fallback was free. */
    method ChooseDefault(fallback: Option<Transport>) returns (ok: bool)
      requires Valid()
      modifies this
      ensures ok <==> old(defaultTransport).Some? || (defaultTag == "" && fallback.Some?)
      ensures !ok || old(defaultTransport).Some? ==>
                && transports == old(transports)
                && transportByTag == old(transportByTag) && defaultTransport == old(defaultTransport)
      ensures ok && old(defaultTransport).None? ==>
                && defaultTransport == fallback
                && transports == old(transports) + [fallback.value]
                && (Valid() <==> fallback.value.tag !in old(transportByTag))
      ensures Indexed(transports, transportByTag) && (Valid() <==> DistinctTags(transports))
      ensures started
    {
      AgreeIsIndexed(transports, transportByTag);
      started := true;
      if defaultTransport.Some? {
        return true;
      }
      if defaultTag != "" || fallback.None? {
        return false;
      }
      AppendIndexed(transports, transportByTag, fallback.value);
      if fallback.value.tag in transportByTag {
        ClashRepeats(transports, transportByTag, fallback.value);
      } else {
        AppendAgrees(transports, transportByTag, fallback.value);
      }
      transports := transports + [fallback.value];
      transportByTag := transportByTag[fallback.value.tag := fallback.value];
      defaultTransport := fallback;
      return true;
    }

    /** Start at StartStateStart.  It starts everything if and only if there is a default or a fallback
        with a free tag, and the graph and the starts are in order; a fallback whose tag is taken
        ends in an error or a crash.  Its tag is free as long as every Create succeeded: then the
        fallback is only asked for an empty manager. */
    method Start(fallback: Option<Transport>, startOk: Transport -> bool)
      returns (order: seq<Transport>, outcome: Option<StartOutcome>)
      requires Valid()
      modifies this
      ensures Valid() <==> !(old(defaultTransport).None? && defaultTag == "" && fallback.Some? &&
                             fallback.value.tag in old(transportByTag))
      ensures old(DefaultChosen()) ==> Valid()
      ensures outcome.None? ==> old(defaultTransport).None? && transports == old(transports) && order == []
      ensures outcome == Some(Started) <==>
                && (old(defaultTransport).Some? || (defaultTag == "" && fallback.Some?))
                && Valid()
                && Complete(transports) && Acyclic(transports) && forall t <- transports :: startOk(t)
      ensures outcome == Some(Started) ==> DependencyOrder(order) && Covers(order, transports)
      ensures outcome == Some(Crashed) ==> !Valid() && Tags(order) == Tags(transports)
    {
      order := [];
      var ok := ChooseDefault(fallback);
      if !ok {
        return order, None;
      }
      var result;
      order, result := StartTransports(transports, transportByTag, startOk);
      outcome := Some(result);
    }

    /** Close empties the list but not the index, which ends their agreement unless there was nothing. */
    method Close()
      requires Valid()
      modifies this
      ensures old(started) ==> transports == [] && transportByTag == old(transportByTag) && !started
      ensures !old(started) ==> transports == old(transports) && transportByTag == old(transportByTag)
      ensures Valid() <==> !old(started) || old(transports) == []
    {
      if !started {
        return;
      }
      started := false;
      assert transports != [] ==> transports[0].tag in Tags(transports);
      transports := [];
    }
  }

  // ---------------------------------------------- the reverse index stays exact

  lemma {:induction false} DependAdds(index: map<string, seq<string>>, dependencies: seq<string>, tag: string,
                                      d: string, u: string)
    ensures u in DependBy(Depend(index, dependencies, tag), d) <==>
            u in DependBy(index, d) || (u == tag && d in dependencies)
  {
    if dependencies == [] {
    } else {
      DependAdds(index, dependencies[..|dependencies| - 1], tag, d, u);
      assert dependencies == dependencies[..|dependencies| - 1] + [dependencies[|dependencies| - 1]];
    }
  }

  /** Registering a transport under a new tag keeps the reverse index exact. */
  lemma CreateKeepsExact(ts: seq<Transport>, index: map<string, seq<string>>, t: Transport)
    requires Exact(ts, index)
    ensures Exact(ts + [t], Depend(index, t.dependencies, t.tag))
  {
    forall d: string, u: string
      ensures u in DependBy(Depend(index, t.dependencies, t.tag), d) <==> Edge(ts + [t], u, d)
    {
      DependAdds(index, t.dependencies, t.tag, d, u);
      assert u in DependBy(index, d) <==> Edge(ts, u, d);
      assert t in ts + [t] && forall x <- ts :: x in ts + [t];
    }
  }

  lemma {:induction false} FilterDrops(tags: seq<string>, tag: string, u: string)
    ensures u in Filter(tags, tag) <==> u in tags && u != tag
  {
    if tags == [] {
    } else {
      FilterDrops(tags[1..], tag, u);
      assert tags == [tags[0]] + tags[1..];
    }
  }

  lemma {:induction false} FilterAgain(tags: seq<string>, tag: string)
    ensures Filter(Filter(tags, tag), tag) == Filter(tags, tag)
  {
    if tags == [] {
    } else {
      FilterAgain(tags[1..], tag);
    }
  }

  function Occurrences(dependencies: seq<string>, d: string): nat {
    if dependencies == [] then 0
    else Occurrences(dependencies[..|dependencies| - 1], d) + if dependencies[|dependencies| - 1] == d then 1 else 0
  }

  lemma {:induction false} OccursIffIn(dependencies: seq<string>, d: string)
    ensures Occurrences(dependencies, d) > 0 <==> d in dependencies
  {
    if dependencies == [] {
    } else {
      OccursIffIn(dependencies[..|dependencies| - 1], d);
      assert dependencies == dependencies[..|dependencies| - 1] + [dependencies[|dependencies| - 1]];
    }
  }

  /** A second pass over the same dependency takes a single remaining entry for one of the removed transport. */
  predicate LosesDependent(index: map<string, seq<string>>, dependencies: seq<string>, tag: string, d: string) {
    Occurrences(dependencies, d) >= 2 && |Filter(DependBy(index, d), tag)| == 1
  }

  lemma {:induction false} UndependAt(index: map<string, seq<string>>, dependencies: seq<string>, tag: string,
                                      d: string)
    requires d in dependencies ==> tag in DependBy(index, d)
    ensures DependBy(Undepend(index, dependencies, tag), d) ==
            if d !in dependencies then DependBy(index, d)
            else if LosesDependent(index, dependencies, tag, d) then []
            else Filter(DependBy(index, d), tag)
  {
    OccursIffIn(dependencies, d);
    if dependencies == [] {
    } else {
      var init, last := dependencies[..|dependencies| - 1], dependencies[|dependencies| - 1];
      OccursIffIn(init, d);
      UndependAt(index, init, tag, d);
      FilterAgain(DependBy(index, d), tag);
      assert Filter([tag], tag) == [];
      var listed := DependBy(index, d);
      if d == last && |listed| == 1 {
        assert listed == [tag];
      }
    }
  }

  /** Removing a transport nobody depends on keeps the reverse index exact if and only if none of its
      dependencies is declared twice while exactly one entry of another transport is listed for it. */
  lemma RemoveKeepsExactIff(ts: seq<Transport>, index: map<string, seq<string>>, k: nat)
    requires DistinctTags(ts) && Exact(ts, index) && k < |ts|
    ensures Exact(ts[..k] + ts[k + 1..], Undepend(index, ts[k].dependencies, ts[k].tag)) <==>
            forall d <- ts[k].dependencies :: !LosesDependent(index, ts[k].dependencies, ts[k].tag, d)
  {
    var t, cut := ts[k], ts[..k] + ts[k + 1..];
    var after := Undepend(index, t.dependencies, t.tag);
    assert t in ts;
    forall d: string, u: string ensures Edge(cut, u, d) <==> Edge(ts, u, d) && u != t.tag {
      CutEdges(ts, k, u, d);
    }
    forall d: string
      ensures (forall u: string :: u in DependBy(after, d) <==> Edge(cut, u, d)) <==>
              !(d in t.dependencies && LosesDependent(index, t.dependencies, t.tag, d))
    {
      assert d in t.dependencies ==> Edge(ts, t.tag, d);
      UndependAt(index, t.dependencies, t.tag, d);
      var rest := Filter(DependBy(index, d), t.tag);
      forall u: string ensures u in rest <==> u in DependBy(index, d) && u != t.tag {
        FilterDrops(DependBy(index, d), t.tag, u);
      }
      if |rest| == 1 {
        assert rest[0] in rest;
        assert Edge(cut, rest[0], d);
      }
      if d !in t.dependencies {
        assert !Edge(ts, t.tag, d);
      }
    }
  }

  lemma CutEdges(ts: seq<Transport>, k: nat, u: string, d: string)
    requires DistinctTags(ts) && k < |ts|
    ensures Edge(ts[..k] + ts[k + 1..], u, d) <==> Edge(ts, u, d) && u != ts[k].tag
  {
    forall t ensures t in ts[..k] + ts[k + 1..] <==> t in ts && t != ts[k] {
      CutMember(ts, k, t);
    }
    assert forall t <- ts :: t != ts[k] ==> t.tag != ts[k].tag;
  }

  /** It can fail: of two transports that depend on a third, the one that declares it twice is removed. */
  lemma RemoveForgetsDependent(a: Transport, b: Transport, c: Transport)
    requires a == Transport(0, "a", Ordinary, ["c", "c"])
    requires b == Transport(1, "b", Ordinary, ["c"])
    requires c == Transport(2, "c", Ordinary, [])
    ensures var index := Depend(Depend(Depend(map[], c.dependencies, "c"), b.dependencies, "b"), a.dependencies, "a");
            && Exact([c, b, a], index)
            && !Exact([c, b], Undepend(index, a.dependencies, "a"))
  {
    var index0 := Depend(map[], c.dependencies, "c");
    var index1 := Depend(index0, b.dependencies, "b");
    var index := Depend(index1, a.dependencies, "a");
    CreateKeepsExact([], map[], c);
    CreateKeepsExact([c], index0, b);
    CreateKeepsExact([c, b], index1, a);
    assert [] + [c] == [c] && [c] + [b] == [c, b] && [c, b] + [a] == [c, b, a];
    assert ["c"][..0] == [] && ["c", "c"][..1] == ["c"];
    assert DependBy(index1, "c") == ["b"];
    assert Depend(index1, ["c"][..0], "a") == index1;
    assert DependBy(Depend(index1, ["c"], "a"), "c") == ["b", "a"];
    assert DependBy(index, "c") == ["b", "a", "a"];
    assert ["b", "a", "a"][1..] == ["a", "a"] && ["a", "a"][1..] == ["a"] && ["a"][1..] == [];
    assert Filter(["a"], "a") == [] && Filter(["a", "a"], "a") == [];
    assert Filter(["b", "a", "a"], "a") == ["b"];
    UndependAt(index, a.dependencies, "a", "c");
    assert Edge([c, b], "b", "c") by {
      assert b in [c, b];
    }
    assert "b" !in DependBy(Undepend(index, a.dependencies, "a"), "c");
  }
}
