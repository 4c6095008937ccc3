/** The search for propagation paths: a depth-first walk with a backtracked visited set, ranked by risk. */
module Paths {
  import opened RealLemmas
  import opened Ordering
  import opened PrismCore

  datatype Graph = Graph(edges: seq<EdgeState>, nodes: Nodes, target: string, maxDepth: int)

  /** A walk is a sequence of positions in the edge list, so parallel edges are told apart. */
  type Walk = seq<nat>

  // ----- what the search should find -----

  ghost predicate EdgesIn(g: Graph, w: Walk) {
    forall i :: 0 <= i < |w| ==> w[i] < |g.edges|
  }

  /** The host the walk is at before its `i`-th edge. */
  ghost function HostBefore(g: Graph, from: string, w: Walk, i: nat): string
    requires EdgesIn(g, w) && i <= |w|
  {
    if i == 0 then from else g.edges[w[i - 1]].target
  }

  ghost predicate Chained(g: Graph, from: string, w: Walk)
    requires EdgesIn(g, w)
  {
    forall i {:trigger HostBefore(g, from, w, i)} :: 0 <= i < |w| ==> g.edges[w[i]].source == HostBefore(g, from, w, i)
  }

  ghost function EndOf(g: Graph, from: string, w: Walk): string
    requires EdgesIn(g, w)
  {
    HostBefore(g, from, w, |w|)
  }

  /** Leads from `from` to the target through known hosts, entering no visited host and none twice. */
  ghost predicate Route(g: Graph, from: string, visited: set<string>, w: Walk) {
    && EdgesIn(g, w) && Chained(g, from, w) && EndOf(g, from, w) == g.target
    && (forall i :: 0 <= i < |w| ==> g.edges[w[i]].source in g.nodes && g.edges[w[i]].target !in visited)
    && (forall i, j :: 0 <= i < j < |w| ==> g.edges[w[i]].target != g.edges[w[j]].target)
  }

  /** The hosts a walk passes, starting host included. */
  function Hosts(g: Graph, from: string, w: Walk): (r: seq<string>)
    requires forall i :: 0 <= i < |w| ==> w[i] < |g.edges|
    ensures |r| == |w| + 1
  {
    [from] + seq(|w|, i requires 0 <= i < |w| => g.edges[w[i]].target)
  }

  /** A simple path: 1 to maxDepth hops from source to target, no host repeated, every expanded host known. */
  ghost predicate SimplePath(g: Graph, source: string, w: Walk) {
    && 1 <= |w| <= g.maxDepth
    && EdgesIn(g, w) && Chained(g, source, w) && EndOf(g, source, w) == g.target
    && Distinct(Hosts(g, source, w))
    && forall i :: 0 <= i < |w| ==> g.edges[w[i]].source in g.nodes
  }

  // ----- the search as a function -----

  function OutEdges(edges: seq<EdgeState>, from: string): seq<nat> {
    if edges == [] then []
    else
      var n := |edges| - 1;
      OutEdges(edges[..n], from) + if edges[n].source == from then [n] else []
  }

  function Prefixed(e: nat, ws: seq<Walk>): seq<Walk> {
    seq(|ws|, k requires 0 <= k < |ws| => [e] + ws[k])
  }

  function Walks(g: Graph, cur: string, visited: set<string>, hop: nat): seq<Walk>
    decreases if hop > g.maxDepth then 0 else g.maxDepth + 1 - hop, 2, 0
  {
    if hop > g.maxDepth then []
    else if cur == g.target && hop > 0 then [[]]
    else Expand(g, OutEdges(g.edges, cur), cur, visited, hop)
  }

  function Expand(g: Graph, outs: seq<nat>, cur: string, visited: set<string>, hop: nat): seq<Walk>
    requires hop <= g.maxDepth
    decreases g.maxDepth + 1 - hop, 1, |outs|
  {
    if outs == [] then []
    else Expand(g, outs[..|outs| - 1], cur, visited, hop) + Branch(g, outs[|outs| - 1], cur, visited, hop)
  }

  function Branch(g: Graph, e: nat, cur: string, visited: set<string>, hop: nat): seq<Walk>
    requires hop <= g.maxDepth
    decreases g.maxDepth + 1 - hop, 0, 0
  {
    if e >= |g.edges| || g.edges[e].target in visited || cur !in g.nodes then []
    else Prefixed(e, Walks(g, g.edges[e].target, visited + {g.edges[e].target}, hop + 1))
  }

  // ----- it finds exactly the simple paths, each once -----

  lemma {:induction false} OutEdgesExact(edges: seq<EdgeState>, from: string)
    ensures forall e: nat :: e in OutEdges(edges, from) <==> e < |edges| && edges[e].source == from
    ensures Distinct(OutEdges(edges, from))
  {
    if edges != [] {
      var init := OutEdges(edges[..|edges| - 1], from);
      OutEdgesExact(edges[..|edges| - 1], from);
      assert forall k :: 0 <= k < |init| ==> init[k] in init;
    }
  }

  lemma PrefixedMember(e: nat, ws: seq<Walk>, w: Walk)
    ensures w in Prefixed(e, ws) <==> w != [] && w[0] == e && w[1..] in ws
  {
    if w != [] && w[0] == e && w[1..] in ws {
      var k :| 0 <= k < |ws| && ws[k] == w[1..];
      assert w == [e] + w[1..];
      assert Prefixed(e, ws)[k] == w;
    }
    if w in Prefixed(e, ws) {
      var k :| 0 <= k < |ws| && w == [e] + ws[k];
      assert w[1..] == ws[k];
    }
  }

  lemma PrefixedDistinct(e: nat, ws: seq<Walk>)
    requires Distinct(ws)
    ensures Distinct(Prefixed(e, ws))
  {
    forall i, j | 0 <= i < j < |ws| ensures [e] + ws[i] != [e] + ws[j] {
      assert ([e] + ws[i])[1..] == ws[i] && ([e] + ws[j])[1..] == ws[j];
    }
  }

  /** The first edge of a route is admissible. */
  ghost predicate FirstEdgeOk(g: Graph, from: string, visited: set<string>, e: nat) {
    e < |g.edges| && g.edges[e].source == from && from in g.nodes && g.edges[e].target !in visited
  }

  lemma RouteTail(g: Graph, from: string, visited: set<string>, w: Walk)
    requires w != [] && Route(g, from, visited, w)
    ensures FirstEdgeOk(g, from, visited, w[0])
    ensures Route(g, g.edges[w[0]].target, visited + {g.edges[w[0]].target}, w[1..])
  {
    var rest, t := w[1..], g.edges[w[0]].target;
    assert forall i :: 0 <= i < |rest| ==> rest[i] == w[i + 1];
    assert g.edges[w[0]].source == HostBefore(g, from, w, 0);
    forall i | 0 <= i < |rest| ensures g.edges[rest[i]].source == HostBefore(g, t, rest, i) {
      assert g.edges[w[i + 1]].source == HostBefore(g, from, w, i + 1);
    }
  }

  lemma HostShift(g: Graph, from: string, w: Walk, i: nat)
    requires w != [] && EdgesIn(g, w) && EdgesIn(g, w[1..]) && 0 < i <= |w|
    ensures HostBefore(g, from, w, i) == HostBefore(g, g.edges[w[0]].target, w[1..], i - 1)
  {
  }

  lemma RouteCons(g: Graph, from: string, visited: set<string>, w: Walk)
    requires w != [] && FirstEdgeOk(g, from, visited, w[0])
    requires Route(g, g.edges[w[0]].target, visited + {g.edges[w[0]].target}, w[1..])
    ensures Route(g, from, visited, w)
  {
    var rest, t := w[1..], g.edges[w[0]].target;
    assert forall i :: 0 < i < |w| ==> w[i] == rest[i - 1];
    assert EdgesIn(g, w);
    assert HostBefore(g, from, w, 0) == from;
    HostShift(g, from, w, |w|);
    hide HostBefore;
    forall i | 0 <= i < |w|
      ensures g.edges[w[i]].source == HostBefore(g, from, w, i)
    {
      if i > 0 {
        HostShift(g, from, w, i);
        assert g.edges[rest[i - 1]].source == HostBefore(g, t, rest, i - 1);
      }
    }
    forall i, j | 0 <= i < j < |w| ensures g.edges[w[i]].target != g.edges[w[j]].target {
      assert w[j] == rest[j - 1];
      if i > 0 { assert w[i] == rest[i - 1]; }
    }
  }

  /** A route starts with an admissible edge and goes on as a route that avoids its end. */
  lemma RouteStep(g: Graph, from: string, visited: set<string>, w: Walk)
    requires w != []
    ensures Route(g, from, visited, w) <==>
      && FirstEdgeOk(g, from, visited, w[0])
      && Route(g, g.edges[w[0]].target, visited + {g.edges[w[0]].target}, w[1..])
  {
    if Route(g, from, visited, w) { RouteTail(g, from, visited, w); }
    if FirstEdgeOk(g, from, visited, w[0]) && Route(g, g.edges[w[0]].target, visited + {g.edges[w[0]].target}, w[1..]) {
      RouteCons(g, from, visited, w);
    }
    hide Route, FirstEdgeOk;
  }

  /** From a visited host: the walks found are the routes that fit in the remaining depth. */
  lemma {:induction false} WalksExact(g: Graph, cur: string, visited: set<string>, hop: nat, w: Walk)
    requires cur in visited
    ensures w in Walks(g, cur, visited, hop) <==>
            hop + |w| <= g.maxDepth && Route(g, cur, visited, w) && (w == [] ==> hop > 0)
    decreases if hop > g.maxDepth then 0 else g.maxDepth + 1 - hop, 2, 0
  {
    if hop <= g.maxDepth {
      if cur == g.target && hop > 0 {
      } else {
        OutEdgesExact(g.edges, cur);
        ExpandExact(g, OutEdges(g.edges, cur), cur, visited, hop, w);
        if w != [] { RouteStep(g, cur, visited, w); }
      }
    }
  }

  lemma {:induction false} ExpandExact(g: Graph, outs: seq<nat>, cur: string, visited: set<string>, hop: nat, w: Walk)
    requires cur in visited && hop <= g.maxDepth
    requires forall e :: e in outs ==> e < |g.edges| && g.edges[e].source == cur
    ensures w in Expand(g, outs, cur, visited, hop) <==>
            w != [] && w[0] in outs && hop + |w| <= g.maxDepth && Route(g, cur, visited, w)
    decreases g.maxDepth + 1 - hop, 1, |outs|
  {
    if outs != [] {
      var n := |outs| - 1;
      assert outs == outs[..n] + [outs[n]];
      assert outs[n] in outs && forall e :: e in outs[..n] ==> e in outs;
      ExpandExact(g, outs[..n], cur, visited, hop, w);
      BranchExact(g, outs[n], cur, visited, hop, w);
    }
  }

  lemma {:induction false} BranchExact(g: Graph, e: nat, cur: string, visited: set<string>, hop: nat, w: Walk)
    requires cur in visited && hop <= g.maxDepth && e < |g.edges| && g.edges[e].source == cur
    ensures w in Branch(g, e, cur, visited, hop) <==>
            w != [] && w[0] == e && hop + |w| <= g.maxDepth && Route(g, cur, visited, w)
    decreases g.maxDepth + 1 - hop, 0, 0
  {
    if w != [] && w[0] == e {
      RouteStep(g, cur, visited, w);
    }
    var t := g.edges[e].target;
    if t !in visited && cur in g.nodes {
      PrefixedMember(e, Walks(g, t, visited + {t}, hop + 1), w);
      if w != [] {
        WalksExact(g, t, visited + {t}, hop + 1, w[1..]);
      }
    }
  }

  lemma {:induction false} WalksDistinct(g: Graph, cur: string, visited: set<string>, hop: nat)
    ensures Distinct(Walks(g, cur, visited, hop))
    decreases if hop > g.maxDepth then 0 else g.maxDepth + 1 - hop, 2, 0
  {
    if hop <= g.maxDepth && !(cur == g.target && hop > 0) {
      OutEdgesExact(g.edges, cur);
      ExpandDistinct(g, OutEdges(g.edges, cur), cur, visited, hop);
    }
  }

  lemma {:induction false} ExpandDistinct(g: Graph, outs: seq<nat>, cur: string, visited: set<string>, hop: nat)
    requires hop <= g.maxDepth && Distinct(outs)
    ensures Distinct(Expand(g, outs, cur, visited, hop))
    ensures forall w :: w in Expand(g, outs, cur, visited, hop) ==> w != [] && w[0] in outs
    decreases g.maxDepth + 1 - hop, 1, |outs|
  {
    if outs != [] {
      var n := |outs| - 1;
      var e := outs[n];
      assert outs == outs[..n] + [e];
      ExpandDistinct(g, outs[..n], cur, visited, hop);
      if e < |g.edges| && g.edges[e].target !in visited && cur in g.nodes {
        var t := g.edges[e].target;
        var ws := Walks(g, t, visited + {t}, hop + 1);
        WalksDistinct(g, t, visited + {t}, hop + 1);
        PrefixedDistinct(e, ws);
        DisjointAppend(Expand(g, outs[..n], cur, visited, hop), Prefixed(e, ws), outs[..n], e);
      }
    }
  }

  lemma DisjointAppend(a: seq<Walk>, b: seq<Walk>, firsts: seq<nat>, e: nat)
    requires Distinct(a) && Distinct(b) && e !in firsts
    requires forall w :: w in a ==> w != [] && w[0] in firsts
    requires forall k :: 0 <= k < |b| ==> b[k] != [] && b[k][0] == e
    ensures Distinct(a + b)
    ensures forall w :: w in a + b ==> w != [] && (w[0] in firsts || w[0] == e)
  {
    forall i, j | 0 <= i < j < |a + b| ensures (a + b)[i] != (a + b)[j] {
      if i < |a| { assert a[i] in a; }
    }
  }

  /** The search from the source finds every simple path, nothing else, and none twice. */
  lemma SearchFindsSimplePaths(g: Graph, source: string, w: Walk)
    ensures w in Walks(g, source, {source}, 0) <==> SimplePath(g, source, w)
    ensures Distinct(Walks(g, source, {source}, 0))
  {
    WalksExact(g, source, {source}, 0, w);
    WalksDistinct(g, source, {source}, 0);
    RouteIsSimple(g, source, w);
    hide Walks, Route, SimplePath;
  }

  lemma HostAt(g: Graph, from: string, w: Walk, i: nat)
    requires EdgesIn(g, w) && i <= |w|
    ensures Hosts(g, from, w)[i] == HostBefore(g, from, w, i)
  {
  }

  lemma SimplePathIsRoute(g: Graph, source: string, w: Walk)
    requires SimplePath(g, source, w)
    ensures Route(g, source, {source}, w)
  {
    var h := Hosts(g, source, w);
    HostAt(g, source, w, 0);
    forall i | 0 <= i < |w| ensures g.edges[w[i]].target !in {source} {
      HostAt(g, source, w, i + 1);
      assert h[0] != h[i + 1];
    }
    forall i, j | 0 <= i < j < |w| ensures g.edges[w[i]].target != g.edges[w[j]].target {
      HostAt(g, source, w, i + 1);
      HostAt(g, source, w, j + 1);
      assert h[i + 1] != h[j + 1];
    }
  }

  lemma RouteHasDistinctHosts(g: Graph, source: string, w: Walk)
    requires Route(g, source, {source}, w)
    ensures Distinct(Hosts(g, source, w))
  {
    var h := Hosts(g, source, w);
    forall i, j | 0 <= i < j < |h| ensures h[i] != h[j] {
      HostAt(g, source, w, i);
      HostAt(g, source, w, j);
      assert h[j] == g.edges[w[j - 1]].target;
    }
  }

  lemma RouteIsSimple(g: Graph, source: string, w: Walk)
    ensures SimplePath(g, source, w) <==> 1 <= |w| <= g.maxDepth && Route(g, source, {source}, w)
  {
    if SimplePath(g, source, w) { SimplePathIsRoute(g, source, w); }
    if Route(g, source, {source}, w) { RouteHasDistinctHosts(g, source, w); }
    hide Hosts, Chained, EndOf;
  }

  /** No path leads from a host to itself. */
  lemma SourceIsTarget(g: Graph)
    ensures Walks(g, g.target, {g.target}, 0) == []
  {
    var ws := Walks(g, g.target, {g.target}, 0);
    if ws != [] {
      var w := ws[0];
      assert w in ws;
      SearchFindsSimplePaths(g, g.target, w);
      WalksExact(g, g.target, {g.target}, 0, w);
    }
  }

  // ----- risk along a path -----

  function Power(x: real, n: nat): real {
    if n == 0 then 1.0 else Power(x, n - 1) * x
  }

  function SpillAt(g: Graph, e: nat): real {
    if e < |g.edges| then Spill(g.edges[e], g.nodes) else 0.0
  }

  /** Each hop's spill-over, weakened by the decay once per earlier hop. */
  function PathRisk(g: Graph, w: Walk, pathDecay: real): real {
    if w == [] then 0.0
    else PathRisk(g, w[..|w| - 1], pathDecay) + Times(SpillAt(g, w[|w| - 1]), Power(pathDecay, |w| - 1))
  }

  lemma {:induction false} PowerStep(x: real, n: nat)
    ensures Power(x, n + 1) == Times(x, Power(x, n))
  {
    if n > 0 {
      PowerStep(x, n - 1);
      assert Power(x, n + 1) == Times(Power(x, n), x) && Power(x, n) == Times(Power(x, n - 1), x);
      hide Power, Times;
      TimesAssociates(x, Power(x, n - 1), x);
    }
  }

  /** A path's risk is that of its first hop and the decayed risk of the rest. */
  lemma {:induction false} RiskByFirstHop(g: Graph, e: nat, w: Walk, pathDecay: real)
    ensures PathRisk(g, [e] + w, pathDecay) == SpillAt(g, e) + Times(pathDecay, PathRisk(g, w, pathDecay))
    ensures e < |g.edges| ==>
      PathRisk(g, [e] + w, pathDecay) == Spill(g.edges[e], g.nodes) + Times(pathDecay, PathRisk(g, w, pathDecay))
    ensures PathRisk(g, [], pathDecay) == 0.0
  {
    assert e < |g.edges| ==> SpillAt(g, e) == Spill(g.edges[e], g.nodes);
    hide SpillAt, Spill;
    if w == [] {
      assert [e] + w == [e] && [e][..0] == [];
      assert Times(SpillAt(g, e), 1.0) == SpillAt(g, e) && Times(pathDecay, 0.0) == 0.0;
    } else {
      var n := |w| - 1;
      RiskByFirstHop(g, e, w[..n], pathDecay);
      assert ([e] + w)[..|[e] + w| - 1] == [e] + w[..n];
      PowerStep(pathDecay, n);
      hide Times, Power;
      var s, p := SpillAt(g, w[n]), Power(pathDecay, n);
      TimesAdd(pathDecay, PathRisk(g, w[..n], pathDecay), Times(s, p));
      TimesCommutes(s, Times(pathDecay, p));
      TimesCommutes(s, p);
      TimesAssociates(pathDecay, p, s);
    }
  }

  /** The same sum as the search accumulates it, front to back with a running decay. */
  function RiskFrom(g: Graph, w: Walk, accum: real, decay: real, pathDecay: real): real {
    if w == [] then accum
    else RiskFrom(g, w[1..], accum + Times(SpillAt(g, w[0]), decay), decay * pathDecay, pathDecay)
  }

  /** The running decay after `n` hops. */
  function DecayAfter(decay: real, pathDecay: real, n: nat): real
    decreases n
  {
    if n == 0 then decay else DecayAfter(decay * pathDecay, pathDecay, n - 1)
  }

  lemma {:induction false} DecayIsPower(decay: real, x: real, n: nat)
    ensures DecayAfter(decay, x, n) == Times(decay, Power(x, n))
    decreases n
  {
    if n > 0 {
      DecayIsPower(decay * x, x, n - 1);
      Regroup(decay, x, Power(x, n - 1));
      hide Times;
    }
  }

  lemma Regroup(a: real, x: real, p: real)
    ensures Times(a * x, p) == Times(a, p * x)
  {
  }

  lemma {:induction false} RiskFromSnoc(g: Graph, w: Walk, e: nat, accum: real, decay: real, pathDecay: real)
    ensures RiskFrom(g, w + [e], accum, decay, pathDecay)
         == RiskFrom(g, w, accum, decay, pathDecay) + Times(SpillAt(g, e), DecayAfter(decay, pathDecay, |w|))
  {
    hide SpillAt, Times;
    if w == [] {
      assert w + [e] == [e] && [e][1..] == [];
      assert RiskFrom(g, [e], accum, decay, pathDecay) == accum + Times(SpillAt(g, e), decay);
    } else {
      var a := accum + Times(SpillAt(g, w[0]), decay);
      assert (w + [e])[1..] == w[1..] + [e] && (w + [e])[0] == w[0];
      RiskFromSnoc(g, w[1..], e, a, decay * pathDecay, pathDecay);
    }
  }

  lemma {:induction false} RunningRiskIsPathRisk(g: Graph, w: Walk, pathDecay: real)
    ensures RiskFrom(g, w, 0.0, 1.0, pathDecay) == PathRisk(g, w, pathDecay)
  {
    hide SpillAt, Times;
    if w != [] {
      var n := |w| - 1;
      assert w == w[..n] + [w[n]];
      RunningRiskIsPathRisk(g, w[..n], pathDecay);
      RiskFromSnoc(g, w[..n], w[n], 0.0, 1.0, pathDecay);
      DecayIsPower(1.0, pathDecay, n);
      TimesOne(Power(pathDecay, n));
    }
  }

  lemma TimesOne(x: real)
    ensures Times(1.0, x) == x
  {
  }

  // ----- the search as the library runs it -----

  datatype Found = Found(path: seq<string>, risk: real, depth: nat)

  function FoundFor(g: Graph, w: Walk, path: seq<string>, accum: real, decay: real, pathDecay: real, hop: nat): Found {
    Found(path + Targets(g, w), RiskFrom(g, w, accum, decay, pathDecay), hop + |w|)
  }

  function Targets(g: Graph, w: Walk): seq<string> {
    seq(|w|, i requires 0 <= i < |w| => if w[i] < |g.edges| then g.edges[w[i]].target else "")
  }

  function FoundAll(g: Graph, ws: seq<Walk>, path: seq<string>, accum: real, decay: real, pathDecay: real,
                    hop: nat): seq<Found> {
    seq(|ws|, k requires 0 <= k < |ws| => FoundFor(g, ws[k], path, accum, decay, pathDecay, hop))
  }

  lemma FoundAllAppend(g: Graph, a: seq<Walk>, b: seq<Walk>, path: seq<string>, accum: real, decay: real,
                       pathDecay: real, hop: nat)
    ensures FoundAll(g, a + b, path, accum, decay, pathDecay, hop)
         == FoundAll(g, a, path, accum, decay, pathDecay, hop) + FoundAll(g, b, path, accum, decay, pathDecay, hop)
  {
    hide FoundFor;
  }

  lemma ExpandOneMore(g: Graph, outs: seq<nat>, k: nat, cur: string, visited: set<string>, hop: nat,
                      path: seq<string>, accum: real, decay: real, pathDecay: real)
    requires k < |outs| && hop <= g.maxDepth
    ensures FoundAll(g, Expand(g, outs[..k + 1], cur, visited, hop), path, accum, decay, pathDecay, hop)
         == FoundAll(g, Expand(g, outs[..k], cur, visited, hop), path, accum, decay, pathDecay, hop)
            + FoundAll(g, Branch(g, outs[k], cur, visited, hop), path, accum, decay, pathDecay, hop)
  {
    hide FoundAll, Branch;
    assert outs[..k + 1][..k] == outs[..k];
    FoundAllAppend(g, Expand(g, outs[..k], cur, visited, hop), Branch(g, outs[k], cur, visited, hop), path, accum,
                   decay, pathDecay, hop);
  }

  /** Descending along an edge and reporting from there is reporting the prefixed walks from here. */
  lemma FoundThroughEdge(g: Graph, e: nat, ws: seq<Walk>, path: seq<string>, accum: real, decay: real, pathDecay: real,
                         hop: nat)
    requires e < |g.edges|
    ensures FoundAll(g, Prefixed(e, ws), path, accum, decay, pathDecay, hop)
         == FoundAll(g, ws, path + [g.edges[e].target], accum + Times(SpillAt(g, e), decay), decay * pathDecay,
                     pathDecay, hop + 1)
  {
    forall k | 0 <= k < |ws|
      ensures FoundFor(g, [e] + ws[k], path, accum, decay, pathDecay, hop)
           == FoundFor(g, ws[k], path + [g.edges[e].target], accum + Times(SpillAt(g, e), decay), decay * pathDecay,
                       pathDecay, hop + 1)
    {
      assert ([e] + ws[k])[1..] == ws[k];
      assert Targets(g, [e] + ws[k]) == [g.edges[e].target] + Targets(g, ws[k]);
      assert path + ([g.edges[e].target] + Targets(g, ws[k])) == (path + [g.edges[e].target]) + Targets(g, ws[k]);
      hide SpillAt, Times;
    }
    hide FoundFor;
  }

  /** The state the recursive closure captures. */
  class PathFinder {
    const g: Graph
    const pathDecay: real
    var adj: map<string, seq<EdgeState>>
    var visited: set<string>
    var allPaths: seq<Found>

    ghost predicate Ready()
      reads this`adj
    {
      forall s :: Neighbours(s) == EdgesAt(g.edges, OutEdges(g.edges, s))
    }

    function Neighbours(s: string): seq<EdgeState>
      reads this`adj
    {
      ListAt(adj, s)
    }

    constructor (g: Graph, pathDecay: real, source: string)
      ensures this.g == g && this.pathDecay == pathDecay
      ensures Ready() && visited == {source} && allPaths == []
    {
      this.g := g;
      this.pathDecay := pathDecay;
      adj := map[];
      visited := {source};
      allPaths := [];
      new;
      for i := 0 to |g.edges|
        invariant forall s :: Neighbours(s) == EdgesAt(g.edges[..i], OutEdges(g.edges[..i], s))
        invariant visited == {source} && allPaths == []
      {
        var e := g.edges[i];
        var extended := adj[e.source := ListAt(adj, e.source) + [e]];
        forall s ensures ListAt(extended, s) == EdgesAt(g.edges[..i + 1], OutEdges(g.edges[..i + 1], s)) {
          AdjacencyUpdate(g.edges, i, adj, s);
        }
        hide EdgesAt, OutEdges, ListAt;
        adj := extended;
      }
      assert g.edges[..|g.edges|] == g.edges;
    }

    /** Appends exactly the paths of `Walks` and leaves the visited set as it found it. */
    method Dfs(cur: string, path: seq<string>, accumRisk: real, decay: real, hop: nat)
      requires Ready() && cur in visited
      modifies this`visited, this`allPaths
      ensures visited == old(visited)
      ensures allPaths
              == old(allPaths) + FoundAll(g, Walks(g, cur, visited, hop), path, accumRisk, decay, pathDecay, hop)
      decreases if hop > g.maxDepth then 0 else g.maxDepth + 1 - hop, 2
    {
      if hop > g.maxDepth {
        return;
      }
      if cur == g.target && hop > 0 {
        assert path + Targets(g, []) == path;
        allPaths := allPaths + [Found(path, accumRisk, hop)];
        return;
      }
      FollowAll(cur, path, accumRisk, decay, hop);
    }

    /** The loop over the current host's outgoing edges. */
    method FollowAll(cur: string, path: seq<string>, accumRisk: real, decay: real, hop: nat)
      requires Ready() && cur in visited && hop <= g.maxDepth
      modifies this`visited, this`allPaths
      ensures visited == old(visited)
      ensures allPaths == old(allPaths)
        + FoundAll(g, Expand(g, OutEdges(g.edges, cur), cur, visited, hop), path, accumRisk, decay, pathDecay, hop)
      decreases g.maxDepth + 1 - hop, 1
    {
      ghost var outs := OutEdges(g.edges, cur);
      OutEdgesExact(g.edges, cur);
      hide OutEdges, Branch, Walks;
      ghost var before, seen := allPaths, visited;
      var edges := Neighbours(cur);
      assert FoundAll(g, Expand(g, outs[..0], cur, seen, hop), path, accumRisk, decay, pathDecay, hop) == [];
      hide FoundAll, Expand;
      for k := 0 to |edges|
        invariant visited == seen
        invariant allPaths
                  == before + FoundAll(g, Expand(g, outs[..k], cur, seen, hop), path, accumRisk, decay, pathDecay, hop)
      {
        ghost var i := outs[k];
        assert i in outs;
        ExpandOneMore(g, outs, k, cur, seen, hop, path, accumRisk, decay, pathDecay);
        Follow(edges[k], i, cur, path, accumRisk, decay, hop);
      }
      assert outs[..|outs|] == outs;
    }

    /** The loop body: one edge, entered unless its end is visited or the current host unknown. */
    method Follow(e: EdgeState, ghost i: nat, cur: string, path: seq<string>, accumRisk: real, decay: real, hop: nat)
      requires Ready() && cur in visited && hop <= g.maxDepth
      requires i < |g.edges| && e == g.edges[i] && e.source == cur
      modifies this`visited, this`allPaths
      ensures visited == old(visited)
      ensures allPaths
              == old(allPaths) + FoundAll(g, Branch(g, i, cur, visited, hop), path, accumRisk, decay, pathDecay, hop)
      decreases g.maxDepth + 1 - hop, 0
    {
      hide Walks;
      if e.target in visited {
        return;
      }
      if cur !in g.nodes {
        return;
      }
      var upstream := g.nodes[cur];
      var erisk := ExternalRisk(upstream.ssamScore);
      var spill := ComputeSpillover(erisk, e.riskTransmission, upstream.criticality);
      assert spill == SpillAt(g, i);
      hide FoundAll, ComputeSpillover, ExternalRisk;
      var decayedSpill := spill * decay;
      assert decayedSpill == Times(SpillAt(g, i), decay);
      hide Times;
      visited := visited + {e.target};
      FoundThroughEdge(g, i, Walks(g, e.target, visited, hop + 1), path, accumRisk, decay, pathDecay, hop);
      Dfs(e.target, path + [e.target], accumRisk + decayedSpill, decay * pathDecay, hop + 1);
      visited := visited - {e.target};
    }
  }

  function EdgesAt(edges: seq<EdgeState>, at: seq<nat>): seq<EdgeState> {
    seq(|at|, k requires 0 <= k < |at| => if at[k] < |edges| then edges[at[k]] else EdgeState("", "", 0.0))
  }

  lemma EdgesAtPrefix(edges: seq<EdgeState>, o: seq<nat>)
    requires edges != [] && forall e :: e in o ==> e < |edges| - 1
    ensures EdgesAt(edges, o) == EdgesAt(edges[..|edges| - 1], o)
  {
    assert forall k :: 0 <= k < |o| ==> o[k] in o;
  }

  lemma EdgesAtSnoc(edges: seq<EdgeState>, o: seq<nat>, e: nat)
    requires e < |edges|
    ensures EdgesAt(edges, o + [e]) == EdgesAt(edges, o) + [edges[e]]
  {
  }

  lemma AdjacencyStep(edges: seq<EdgeState>, s: string)
    requires edges != []
    ensures var n := |edges| - 1;
            EdgesAt(edges, OutEdges(edges, s)) == EdgesAt(edges[..n], OutEdges(edges[..n], s))
              + if edges[n].source == s then [edges[n]] else []
  {
    hide EdgesAt;
    var n := |edges| - 1;
    var o := OutEdges(edges[..n], s);
    OutEdgesExact(edges[..n], s);
    EdgesAtPrefix(edges, o);
    EdgesAtSnoc(edges, o, n);
    assert o + [] == o;
  }

  function ListAt(adj: map<string, seq<EdgeState>>, s: string): seq<EdgeState> {
    if s in adj then adj[s] else []
  }

  /** Appending one edge to its source's list keeps the lists in step with the edge list. */
  lemma AdjacencyUpdate(edges: seq<EdgeState>, i: nat, adj: map<string, seq<EdgeState>>, s: string)
    requires i < |edges|
    requires forall x :: ListAt(adj, x) == EdgesAt(edges[..i], OutEdges(edges[..i], x))
    ensures ListAt(adj[edges[i].source := ListAt(adj, edges[i].source) + [edges[i]]], s)
         == EdgesAt(edges[..i + 1], OutEdges(edges[..i + 1], s))
  {
    assert edges[..i + 1][..i] == edges[..i];
    AdjacencyStep(edges[..i + 1], s);
    hide EdgesAt, OutEdges;
    assert ListAt(adj, s) + [] == ListAt(adj, s);
  }

  datatype PathResult = PathResult(path: seq<string>, cumulativeRisk: real)

  /** Every simple path as the library reports it, before ranking. */
  function AllResults(g: Graph, source: string, pathDecay: real): seq<PathResult> {
    var ws := Walks(g, source, {source}, 0);
    seq(|ws|, k requires 0 <= k < |ws| => ResultFor(g, source, ws[k], pathDecay))
  }

  function ResultFor(g: Graph, source: string, w: Walk, pathDecay: real): PathResult {
    PathResult([source] + Targets(g, w), PathRisk(g, w, pathDecay))
  }

  function Published(f: Found): PathResult {
    PathResult(f.path, f.risk)
  }

  function PublishAll(fs: seq<Found>): seq<PathResult> {
    seq(|fs|, k requires 0 <= k < |fs| => Published(fs[k]))
  }

  lemma FoundIsResult(g: Graph, source: string, pathDecay: real)
    ensures PublishAll(FoundAll(g, Walks(g, source, {source}, 0), [source], 0.0, 1.0, pathDecay, 0))
            == AllResults(g, source, pathDecay)
  {
    var ws := Walks(g, source, {source}, 0);
    hide Walks;
    forall k | 0 <= k < |ws|
      ensures Published(FoundFor(g, ws[k], [source], 0.0, 1.0, pathDecay, 0)) == ResultFor(g, source, ws[k], pathDecay)
    {
      RunningRiskIsPathRisk(g, ws[k], pathDecay);
    }
    hide FoundFor, ResultFor;
  }

  lemma {:induction false} PublishMultiset(a: seq<Found>, b: seq<Found>)
    requires multiset(a) == multiset(b)
    ensures multiset(PublishAll(a)) == multiset(PublishAll(b))
    decreases |a|
  {
    hide Published;
    if a == [] {
      assert |multiset(b)| == |b| && |multiset(a)| == |a|;
      assert b == [];
    } else {
      var n := |a| - 1;
      SameMembers(a, b);
      assert a[n] in b;
      var i :| 0 <= i < |b| && b[i] == a[n];
      Without(a, n);
      Without(b, i);
      var x := a[n];
      assert multiset(a[..n] + a[n + 1..]) == multiset(a) - multiset{x};
      assert multiset(b[..i] + b[i + 1..]) == multiset(b) - multiset{x};
      PublishMultiset(a[..n] + a[n + 1..], b[..i] + b[i + 1..]);
    }
  }

  /** Taking one entry out takes one result out. */
  lemma Without(b: seq<Found>, i: nat)
    requires i < |b|
    ensures multiset(b) == multiset(b[..i] + b[i + 1..]) + multiset{b[i]}
    ensures multiset(PublishAll(b)) == multiset(PublishAll(b[..i] + b[i + 1..])) + multiset{Published(b[i])}
  {
    hide Published;
    assert b == b[..i] + [b[i]] + b[i + 1..];
    assert PublishAll(b) == PublishAll(b[..i]) + [Published(b[i])] + PublishAll(b[i + 1..]);
    assert PublishAll(b[..i] + b[i + 1..]) == PublishAll(b[..i]) + PublishAll(b[i + 1..]);
  }

  /** `r` is what the library reports for some simple path: its hosts and its risk. */
  ghost predicate ReportsSimplePath(g: Graph, source: string, pathDecay: real, r: PathResult) {
    exists w ::
      SimplePath(g, source, w) && r.path == Hosts(g, source, w) && r.cumulativeRisk == PathRisk(g, w, pathDecay)
  }

  lemma ResultOfSimplePath(g: Graph, source: string, w: Walk, pathDecay: real)
    requires SimplePath(g, source, w)
    ensures ResultFor(g, source, w, pathDecay) == PathResult(Hosts(g, source, w), PathRisk(g, w, pathDecay))
  {
    hide PathRisk;
    assert [source] + Targets(g, w) == Hosts(g, source, w);
  }

  lemma ResultsAreSimplePaths(g: Graph, source: string, pathDecay: real, r: PathResult)
    ensures r in AllResults(g, source, pathDecay) <==> ReportsSimplePath(g, source, pathDecay, r)
    ensures r in AllResults(g, source, pathDecay) ==> 2 <= |r.path| <= g.maxDepth + 1 && r.path[0] == source
  {
    var ws := Walks(g, source, {source}, 0);
    hide Walks, ResultFor, PathRisk;
    if r in AllResults(g, source, pathDecay) {
      var k :| 0 <= k < |ws| && r == ResultFor(g, source, ws[k], pathDecay);
      SearchFindsSimplePaths(g, source, ws[k]);
      ResultOfSimplePath(g, source, ws[k], pathDecay);
    }
    if ReportsSimplePath(g, source, pathDecay, r) {
      var w :| && SimplePath(g, source, w) && r.path == Hosts(g, source, w)
               && r.cumulativeRisk == PathRisk(g, w, pathDecay);
      SearchFindsSimplePaths(g, source, w);
      ResultOfSimplePath(g, source, w, pathDecay);
      var k :| 0 <= k < |ws| && ws[k] == w;
      assert AllResults(g, source, pathDecay)[k] == r;
    }
  }

  /** The reported and the omitted together. */
  lemma SplitMembers<T>(results: seq<T>, omitted: seq<T>, all: seq<T>, r: T)
    requires multiset(results) + multiset(omitted) == multiset(all)
    ensures r in results + omitted <==> r in all
  {
    assert r in all <==> r in multiset(all);
    assert r in results <==> r in multiset(results);
    assert r in omitted <==> r in multiset(omitted);
  }

  function EffectiveDepth(maxDepth: int, cfg: PrismConfig): int {
    if maxDepth <= 0 then cfg.maxPathDepth else maxDepth
  }

  function EffectiveLimit(limit: int): (r: nat)
    ensures r > 0
  {
    if limit <= 0 then 10 else limit
  }

  /** The `limit` riskiest of all simple paths: ranked, and nothing left out is riskier than anything kept.
      `omitted` names what the limit cut off. */
  method FindPropagationPaths(source: string, target: string, nodes: Nodes, edges: seq<EdgeState>, cfg: PrismConfig,
                              maxDepth: int, limit: int)
    returns (results: seq<PathResult>, ghost omitted: seq<PathResult>)
    ensures var all := AllResults(Graph(edges, nodes, target, EffectiveDepth(maxDepth, cfg)), source, cfg.pathDecay);
            && multiset(results) + multiset(omitted) == multiset(all)
            && |results| == (if |all| < EffectiveLimit(limit) then |all| else EffectiveLimit(limit))
    ensures forall i, j :: 0 <= i < j < |results| ==> results[i].cumulativeRisk >= results[j].cumulativeRisk
    ensures forall r, o :: r in results && o in omitted ==> r.cumulativeRisk >= o.cumulativeRisk
    ensures var depth, cap := if maxDepth > 0 then maxDepth else cfg.maxPathDepth, if limit > 0 then limit else 10;
            && |results| <= cap && (omitted != [] ==> |results| == cap)
            && (forall r :: r in results + omitted <==>
                              ReportsSimplePath(Graph(edges, nodes, target, depth), source, cfg.pathDecay, r))
            && (forall r :: r in results + omitted ==> 2 <= |r.path| <= depth + 1 && r.path[0] == source)
  {
    var depth := if maxDepth <= 0 then cfg.maxPathDepth else maxDepth;
    var cut := if limit <= 0 then 10 else limit;
    var g := Graph(edges, nodes, target, depth);
    hide Walks, FoundAll, AllResults, ReportsSimplePath, Hosts;
    var finder := new PathFinder(g, cfg.pathDecay, source);
    finder.Dfs(source, [source], 0.0, 1.0, 0);
    var found := finder.allPaths;
    FoundIsResult(g, source, cfg.pathDecay);
    ghost var all := AllResults(g, source, cfg.pathDecay);
    assert PublishAll(found) == all;
    var ranked := RankByRisk(found);
    PublishMultiset(ranked, found);
    if cut > |ranked| {
      cut := |ranked|;
    }
    results := [];
    for i := 0 to cut
      invariant results == PublishAll(ranked[..i])
    {
      results := results + [PathResult(ranked[i].path, ranked[i].risk)];
      assert ranked[..i + 1] == ranked[..i] + [ranked[i]];
    }
    omitted := PublishAll(ranked[cut..]);
    assert PublishAll(ranked) == results + omitted;
    assert |all| == |found| == |ranked|;
    forall r, o | r in results && o in omitted ensures r.cumulativeRisk >= o.cumulativeRisk {
      var i :| 0 <= i < |results| && results[i] == r;
      var j :| 0 <= j < |omitted| && omitted[j] == o;
      assert ranked[i].risk >= ranked[cut + j].risk;
    }
    hide PublishAll;
    forall r ensures r in results + omitted <==> r in all { SplitMembers(results, omitted, all, r); }
    forall r { ResultsAreSimplePaths(g, source, cfg.pathDecay, r); }
  }

  method RankByRisk(found: seq<Found>) returns (ranked: seq<Found>)
    ensures multiset(ranked) == multiset(found) && |ranked| == |found|
    ensures forall i, j :: 0 <= i < j < |ranked| ==> ranked[i].risk >= ranked[j].risk
  {
    var leq := (a: Found, b: Found) => a.risk >= b.risk;
    ranked := SortBy(found, leq);
    forall i, j | 0 <= i < j < |ranked| ensures ranked[i].risk >= ranked[j].risk {
      assert leq(ranked[i], ranked[j]);
    }
  }
}
