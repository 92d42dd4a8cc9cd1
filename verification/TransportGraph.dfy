/**
 DNS transports and the dependency graph their tags span, as declarative notions:
 what it means for all dependencies to exist, for the graph to be acyclic, and
 for a start order to respect it.
 */
module TransportGraph {
  import opened Wrappers

  datatype Kind = FakeIP | Ordinary

  /** `id` is the identity of the object; two transports may share a tag over time. */
  datatype Transport = Transport(id: nat, tag: string, kind: Kind, dependencies: seq<string>)

  function Tags(ts: seq<Transport>): set<string> {
    set t <- ts :: t.tag
  }

  ghost predicate DistinctTags(ts: seq<Transport>) {
    forall i, j :: 0 <= i < j < |ts| ==> ts[i].tag != ts[j].tag
  }

  ghost predicate Edge(ts: seq<Transport>, a: string, b: string) {
    exists t <- ts :: t.tag == a && b in t.dependencies
  }

  /** Consecutive tags are linked by declared dependencies. */
  ghost predicate IsPath(ts: seq<Transport>, p: seq<string>) {
    p != [] && forall i :: 0 <= i < |p| - 1 ==> Edge(ts, p[i], p[i + 1])
  }

  ghost predicate IsCycle(ts: seq<Transport>, p: seq<string>) {
    |p| >= 2 && p[0] == p[|p| - 1] && IsPath(ts, p)
  }

  ghost predicate Acyclic(ts: seq<Transport>) {
    forall p: seq<string> :: !IsCycle(ts, p)
  }

  ghost predicate Complete(ts: seq<Transport>) {
    forall t <- ts :: forall d <- t.dependencies :: d in Tags(ts)
  }

  /** No transport comes twice, and each comes after all it depends on. */
  ghost predicate DependencyOrder(order: seq<Transport>) {
    && DistinctTags(order)
    && forall k :: 0 <= k < |order| ==> forall d <- order[k].dependencies :: d in Tags(order[..k])
  }

  // ------------------------------------------------------------------ counting

  lemma {:induction false} TagCount(ts: seq<Transport>)
    requires DistinctTags(ts)
    ensures |Tags(ts)| == |ts|
  {
    if ts == [] {
    } else {
      var init, last := ts[..|ts| - 1], ts[|ts| - 1];
      TagCount(init);
      assert ts == init + [last];
      assert Tags(ts) == Tags(init) + {last.tag};
    }
  }

  /** There are at most as many tags as transports, and fewer if a tag repeats. */
  lemma {:induction false} AtMostTags(ts: seq<Transport>)
    ensures |Tags(ts)| <= |ts|
    ensures |Tags(ts)| == |ts| ==> DistinctTags(ts)
  {
    if ts == [] {
    } else {
      var init, last := ts[..|ts| - 1], ts[|ts| - 1];
      AtMostTags(init);
      assert ts == init + [last];
      assert Tags(ts) == Tags(init) + {last.tag};
      if last.tag in Tags(init) {
        assert Tags(ts) == Tags(init);
      } else {
        assert forall i :: 0 <= i < |init| ==> init[i] in init;
      }
    }
  }

  lemma FullSubset(a: set<string>, b: set<string>)
    requires a <= b && |a| == |b|
    ensures a == b
  {
    if x :| x in b && x !in a {
      assert a <= b - {x};
      SubsetCount(a, b - {x});
    }
  }

  lemma {:induction false} SubsetCount(a: set<string>, b: set<string>)
    requires a <= b
    ensures |a| <= |b|
  {
    if a == {} {
    } else {
      var x :| x in a;
      SubsetCount(a - {x}, b - {x});
    }
  }

  // ---------------------------------------------- an order refutes every cycle

  ghost predicate Covers(order: seq<Transport>, ts: seq<Transport>) {
    && (forall t <- order :: t in ts)
    && (forall t <- ts :: t in order)
  }

  ghost function Position(order: seq<Transport>, tag: string): (k: nat)
    requires tag in Tags(order)
    ensures k < |order| && order[k].tag == tag
  {
    var k :| 0 <= k < |order| && order[k].tag == tag;
    k
  }

  /** Along an edge the position in the order goes down. */
  lemma EdgeGoesDown(order: seq<Transport>, ts: seq<Transport>, a: string, b: string)
    requires DependencyOrder(order) && Covers(order, ts) && Edge(ts, a, b)
    ensures a in Tags(order) && b in Tags(order) && Position(order, b) < Position(order, a)
  {
    var t :| t in ts && t.tag == a && b in t.dependencies;
    var k :| 0 <= k < |order| && order[k] == t;
    assert k == Position(order, a);
    var u :| u in order[..k] && u.tag == b;
    var j :| 0 <= j < k && order[j] == u;
    assert j == Position(order, b);
  }

  lemma {:induction false} PathGoesDown(order: seq<Transport>, ts: seq<Transport>, p: seq<string>, n: nat)
    requires DependencyOrder(order) && Covers(order, ts) && IsPath(ts, p) && 1 <= n < |p|
    ensures p[0] in Tags(order) && p[n] in Tags(order) && Position(order, p[n]) < Position(order, p[0])
  {
    EdgeGoesDown(order, ts, p[n - 1], p[n]);
    if n > 1 {
      PathGoesDown(order, ts, p, n - 1);
    }
  }

  /** A dependency order of all transports exists only if the graph is complete and acyclic. */
  lemma OrderedIsSound(order: seq<Transport>, ts: seq<Transport>)
    requires DependencyOrder(order) && Covers(order, ts)
    ensures Complete(ts) && Acyclic(ts)
  {
    forall t <- ts, d <- t.dependencies ensures d in Tags(ts) {
      assert Edge(ts, t.tag, d);
      EdgeGoesDown(order, ts, t.tag, d);
      assert order[Position(order, d)] in ts;
    }
    forall p: seq<string> ensures !IsCycle(ts, p) {
      if IsCycle(ts, p) {
        PathGoesDown(order, ts, p, |p| - 1);
      }
    }
  }

  /** A path that runs into itself contains a cycle. */
  lemma RepeatIsCycle(ts: seq<Transport>, tree: seq<string>, tag: string)
    requires IsPath(ts, tree) && tag in tree && Edge(ts, tree[|tree| - 1], tag)
    ensures !Acyclic(ts)
  {
    var i :| 0 <= i < |tree| && tree[i] == tag;
    var p := tree[i..] + [tag];
    assert forall k :: 0 <= k < |p| - 1 ==> p[k] == tree[i + k];
    assert IsCycle(ts, p);
  }
}
