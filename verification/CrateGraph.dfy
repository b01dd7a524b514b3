/**
 * infra/check_crate_graph.py: the three-colour search for a dependency cycle and the direct
 * check for forbidden edges. Packages are numbered in the order of their sorted ids.
 */
module CrateGraph {
  import opened Wrappers

  type Graph = map<nat, set<nat>>

  datatype Kind = Generic | Doom

  datatype Color = WHITE | GRAY | BLACK

  /** Every dependency is itself a package, as `build_graph` arranges. */
  predicate Closed(graph: Graph) {
    forall n, m :: n in graph && m in graph[n] ==> m in graph
  }

  /** Each node depends on the next. */
  predicate IsWalk(graph: Graph, walk: seq<nat>) {
    forall i :: 0 <= i < |walk| - 1 ==> walk[i] in graph && walk[i + 1] in graph[walk[i]]
  }

  predicate IsClosedWalk(graph: Graph, walk: seq<nat>) {
    |walk| >= 2 && walk[0] == walk[|walk| - 1] && IsWalk(graph, walk)
  }

  ghost predicate Acyclic(graph: Graph) {
    forall walk :: !IsClosedWalk(graph, walk)
  }

  predicate AllDifferent(xs: seq<nat>) {
    forall i, j :: 0 <= i < j < |xs| ==> xs[i] != xs[j]
  }

  // ----- sorted() ------------------------------------------------------------------------------

  predicate Increasing(xs: seq<nat>) {
    forall i, j :: 0 <= i < j < |xs| ==> xs[i] < xs[j]
  }

  predicate IsMinimum(m: nat, s: set<nat>) {
    m in s && forall x :: x in s ==> m <= x
  }

  lemma HasMinimum(s: set<nat>)
    requires s != {}
    ensures exists m :: IsMinimum(m, s)
    decreases |s|
  {
    var a :| a in s;
    var rest := s - {a};
    if rest == {} {
      assert s == {a} && IsMinimum(a, s);
    } else {
      assert |rest| < |s|;
      HasMinimum(rest);
      var m :| IsMinimum(m, rest);
      var least := if a <= m then a else m;
      forall x | x in s ensures least <= x {
        assert x == a || x in rest;
      }
      assert IsMinimum(least, s);
    }
  }

  function Minimum(s: set<nat>): (m: nat)
    requires s != {}
    ensures IsMinimum(m, s)
  {
    HasMinimum(s);
    var m :| m in s && IsMinimum(m, s);
    m
  }

  function Sorted(s: set<nat>): (xs: seq<nat>)
    ensures Increasing(xs) && forall x :: x in xs <==> x in s
    decreases |s|
  {
    if s == {} then []
    else
      var m := Minimum(s);
      assert |s - {m}| < |s|;
      [m] + Sorted(s - {m})
  }

  // ----- what a finished part of the search shows ----------------------------------------------

  /** `order` lists nodes so that each depends only on earlier ones. */
  predicate Topological(graph: Graph, order: seq<nat>) {
    forall i, m :: 0 <= i < |order| && order[i] in graph && m in graph[order[i]] ==> m in order[..i]
  }

  /** A walk that starts at position `i` of a topological order ends before it. */
  lemma {:induction false} WalkGoesBack(graph: Graph, order: seq<nat>, walk: seq<nat>, i: nat)
    requires Topological(graph, order) && IsWalk(graph, walk) && |walk| >= 2
    requires i < |order| && order[i] == walk[0]
    ensures walk[|walk| - 1] in order[..i]
    decreases |walk|
  {
    assert walk[1] in order[..i];
    var j :| 0 <= j < i && order[j] == walk[1];
    if |walk| > 2 {
      assert IsWalk(graph, walk[1..]) by {
        forall k | 0 <= k < |walk[1..]| - 1 ensures walk[1..][k] in graph && walk[1..][k + 1] in graph[walk[1..][k]] {
          assert walk[k + 1] in graph && walk[k + 1 + 1] in graph[walk[k + 1]];
        }
      }
      WalkGoesBack(graph, order, walk[1..], j);
      assert order[..j] <= order[..i];
    }
  }

  lemma TopologicalIsAcyclic(graph: Graph, order: seq<nat>)
    requires Topological(graph, order) && AllDifferent(order)
    requires forall n :: n in graph ==> n in order
    ensures Acyclic(graph)
  {
    forall walk | IsClosedWalk(graph, walk) ensures false {
      assert walk[0] in graph;
      var i :| 0 <= i < |order| && order[i] == walk[0];
      WalkGoesBack(graph, order, walk, i);
    }
  }

  // ----- the search ----------------------------------------------------------------------------

  function WhiteOf(color: map<nat, Color>): set<nat> {
    set n | n in color && color[n] == WHITE
  }

  /** Only white nodes have changed colour. */
  ghost predicate Extends(before: map<nat, Color>, after: map<nat, Color>) {
    after.Keys == before.Keys && forall n :: n in before && before[n] != WHITE ==> after[n] == before[n]
  }

  lemma ExtendsOn(a: map<nat, Color>, b: map<nat, Color>, c: map<nat, Color>)
    requires Extends(a, b) && Extends(b, c)
    ensures Extends(a, c)
  {
  }

  lemma ExtendsSelf(a: map<nat, Color>)
    ensures Extends(a, a)
  {
  }

  lemma ExtendsShrinks(before: map<nat, Color>, after: map<nat, Color>)
    requires Extends(before, after)
    ensures WhiteOf(after) <= WhiteOf(before)
  {
  }

  /** A white node turned grey, the search below it, and the node turned black. */
  lemma ColoredBlack(before: map<nat, Color>, node: nat, inner: map<nat, Color>)
    requires node in before && before[node] == WHITE && Extends(before[node := GRAY], inner)
    ensures node in inner && inner[node] == GRAY && Extends(before, inner[node := BLACK])
    ensures WhiteOf(before[node := GRAY]) < WhiteOf(before)
  {
    assert node in WhiteOf(before) && node !in WhiteOf(before[node := GRAY]);
  }

  /** What is black stays black. */
  lemma BlacksStay(before: map<nat, Color>, after: map<nat, Color>, nodes: seq<nat>, i: nat)
    requires Extends(before, after) && i <= |nodes|
    requires forall k :: 0 <= k < i ==> nodes[k] in before && before[nodes[k]] == BLACK
    ensures forall k :: 0 <= k < i ==> nodes[k] in after && after[nodes[k]] == BLACK
  {
  }

  /** The variables `find_cycle` shares with its inner `visit`. */
  class CycleSearch {
    const graph: Graph
    var color: map<nat, Color>
    var stack: seq<nat>
    /** The black nodes, in the order they were finished. */
    ghost var order: seq<nat>

    constructor (graph: Graph)
      requires Closed(graph)
      ensures this.graph == graph && Valid() && stack == [] && order == []
      ensures forall n :: n in graph ==> color[n] == WHITE
    {
      this.graph := graph;
      color := map n | n in graph :: WHITE;
      stack := [];
      order := [];
    }

    /** Grey is on the stack, which is a walk; black is finished, in topological order. */
    ghost predicate Valid()
      reads this
    {
      && Closed(graph)
      && color.Keys == graph.Keys
      && AllDifferent(stack) && (forall n :: n in stack <==> n in color && color[n] == GRAY)
      && IsWalk(graph, stack)
      && AllDifferent(order) && (forall n :: n in order <==> n in color && color[n] == BLACK)
      && Topological(graph, order)
    }

    /** A closed walk along real edges, returning to its start and nowhere else. */
    predicate IsCycle(walk: seq<nat>) {
      IsClosedWalk(graph, walk) && AllDifferent(walk[1..])
    }

    /** The walk from `neighbor` up the stack and back. */
    method CloseLoop(neighbor: nat) returns (cycle: seq<nat>)
      requires Valid() && stack != [] && neighbor in stack && neighbor in graph[stack[|stack| - 1]]
      ensures IsCycle(cycle)
    {
      var cycleStart := 0;
      while stack[cycleStart] != neighbor
        invariant 0 <= cycleStart < |stack| && neighbor !in stack[..cycleStart]
        decreases |stack| - cycleStart
      {
        cycleStart := cycleStart + 1;
      }
      var loop := stack[cycleStart..];
      cycle := loop + [neighbor];
      assert IsWalk(graph, cycle) by {
        forall i | 0 <= i < |cycle| - 1 ensures cycle[i] in graph && cycle[i + 1] in graph[cycle[i]] {
          assert cycle[i] == stack[cycleStart + i];
        }
      }
      forall i, j | 0 <= i < j < |cycle[1..]| ensures cycle[1..][i] != cycle[1..][j] {
        assert cycle[i + 1] == stack[cycleStart + (i + 1)];
        assert j < |loop| - 1 ==> cycle[j + 1] == stack[cycleStart + (j + 1)];
      }
    }

    lemma PushKeeps(node: nat, color': map<nat, Color>, stack': seq<nat>)
      requires Valid() && node in graph && color[node] == WHITE
      requires stack != [] ==> node in graph[stack[|stack| - 1]]
      requires color' == color[node := GRAY] && stack' == stack + [node]
      ensures AllDifferent(stack') && IsWalk(graph, stack')
      ensures forall n :: n in stack' <==> n in color' && color'[n] == GRAY
      ensures forall n :: n in order <==> n in color' && color'[n] == BLACK
    {
      forall k | 0 <= k < |stack'| - 1 ensures stack'[k] in graph && stack'[k + 1] in graph[stack'[k]] {
        if k < |stack| - 1 {
          assert stack[k + 1] in graph[stack[k]];
        } else {
          assert stack[k] in stack;
        }
      }
    }

    lemma PopKeeps(node: nat, stack': seq<nat>, color': map<nat, Color>)
      requires Valid() && stack == stack' + [node] && color' == color[node := BLACK]
      requires node in graph && forall m :: m in graph[node] ==> color[m] == BLACK
      ensures AllDifferent(stack') && IsWalk(graph, stack')
      ensures forall n :: n in stack' <==> n in color' && color'[n] == GRAY
      ensures AllDifferent(order + [node]) && Topological(graph, order + [node])
      ensures forall n :: n in order + [node] <==> n in color' && color'[n] == BLACK
    {
      assert node in stack && color[node] == GRAY;
      forall i, j | 0 <= i < j < |stack'| ensures stack'[i] != stack'[j] {
        assert stack[i] == stack'[i] && stack[j] == stack'[j];
      }
      forall n ensures n in stack' <==> n in color' && color'[n] == GRAY {
        assert n in stack <==> n in stack' || n == node;
        if n in stack' {
          var k :| 0 <= k < |stack'| && stack'[k] == n;
          assert stack[k] == n && stack[|stack'|] == node;
        }
      }
      forall k | 0 <= k < |stack'| - 1 ensures stack'[k] in graph && stack'[k + 1] in graph[stack'[k]] {
        assert stack[k + 1] in graph[stack[k]];
      }
      var order' := order + [node];
      forall k, m | 0 <= k < |order'| && order'[k] in graph && m in graph[order'[k]] ensures m in order'[..k] {
        if k < |order| {
          assert m in order[..k];
          assert order'[..k] == order[..k];
        } else {
          assert order'[..k] == order;
        }
      }
    }

    ghost predicate IsBlack(n: nat)
      reads this
    {
      n in graph && n in color && color[n] == BLACK
    }

    /** Between two searches nothing is grey. */
    lemma NothingGray(n: nat)
      requires Valid() && stack == [] && n in graph
      ensures n in color && (color[n] == WHITE || IsBlack(n))
    {
      hide AllDifferent, IsWalk, Topological;
      assert n !in stack;
    }

    /** When everything is black the finishing order is topological. */
    lemma AllBlack()
      requires Valid() && forall n :: n in graph ==> IsBlack(n)
      ensures Acyclic(graph)
    {
      hide AllDifferent, IsWalk, Topological, Acyclic;
      TopologicalIsAcyclic(graph, order);
    }

    /** Grey and pushed. */
    method Enter(node: nat)
      requires Valid() && node in graph && color[node] == WHITE
      requires stack != [] ==> node in graph[stack[|stack| - 1]]
      modifies this
      ensures Valid() && stack == old(stack) + [node] && color == old(color)[node := GRAY] && order == old(order)
      ensures color.Keys == graph.Keys
    {
      hide AllDifferent, IsWalk, Topological;
      PushKeeps(node, color[node := GRAY], stack + [node]);
      color := color[node := GRAY];
      stack := stack + [node];
    }

    /** Popped and black. */
    method Leave(node: nat)
      requires Valid() && stack != [] && stack[|stack| - 1] == node
      requires node in graph && forall m :: m in graph[node] ==> m in color && color[m] == BLACK
      modifies this
      ensures Valid() && stack == old(stack)[..|old(stack)| - 1] && color == old(color)[node := BLACK]
      ensures order == old(order) + [node]
    {
      hide AllDifferent, IsWalk, Topological;
      PopKeeps(node, stack[..|stack| - 1], color[node := BLACK]);
      stack := stack[..|stack| - 1];
      color := color[node := BLACK];
      order := order + [node];
    }

    /** What `visit` relies on for one dependency of the node on top of the stack. */
    lemma NeighborFacts(node: nat, neighbor: nat)
      requires Valid() && node in graph && neighbor in graph[node]
      ensures neighbor in graph && color.Keys == graph.Keys
      ensures color[neighbor] == GRAY ==> neighbor in stack
    {
      hide AllDifferent, IsWalk, Topological;
    }

    lemma Colored()
      requires Valid()
      ensures color.Keys == graph.Keys
    {
    }

    /** The inner `visit`. */
    method Visit(node: nat) returns (found: Option<seq<nat>>)
      requires Valid() && node in graph && color[node] == WHITE
      requires stack != [] ==> node in graph[stack[|stack| - 1]]
      modifies this
      ensures found.Some? ==> IsCycle(found.value)
      ensures found.None? ==> Valid() && stack == old(stack) && Extends(old(color), color) && IsBlack(node)
      decreases WhiteOf(color)
    {
      hide AllDifferent, IsWalk, Topological, IsCycle, Valid, Extends, WhiteOf;
      Colored();
      ghost var before := color;
      ghost var entered := color[node := GRAY];
      Enter(node);
      ExtendsSelf(entered);
      ColoredBlack(before, node, entered);
      var neighbors := Sorted(graph[node]);
      for i := 0 to |neighbors|
        invariant Valid() && stack == old(stack) + [node] && Extends(entered, color)
        invariant forall k :: 0 <= k < i ==> neighbors[k] in color && color[neighbors[k]] == BLACK
      {
        var neighbor := neighbors[i];
        assert neighbor in graph[node];
        NeighborFacts(node, neighbor);
        if color[neighbor] == GRAY {
          var cycle := CloseLoop(neighbor);
          return Some(cycle);
        }
        if color[neighbor] == WHITE {
          ghost var last := color;
          ExtendsShrinks(entered, last);
          found := Visit(neighbor);
          if found.Some? { return; }
          ExtendsOn(entered, last, color);
          BlacksStay(last, color, neighbors, i);
        }
      }
      ColoredBlack(before, node, color);
      assert forall m :: m in graph[node] ==> m in neighbors;
      Leave(node);
      assert stack == old(stack);
      found := None;
    }
  }

  /**
   * `find_cycle`: nothing exactly when the graph is acyclic, otherwise a closed walk along real
   * dependencies that repeats no package but its first.
   */
  method FindCycle(graph: Graph) returns (found: Option<seq<nat>>)
    requires Closed(graph)
    ensures found.None? <==> Acyclic(graph)
    ensures found.Some? ==> IsClosedWalk(graph, found.value) && AllDifferent(found.value[1..])
  {
    hide AllDifferent, IsWalk, Topological, Acyclic, IsClosedWalk, CycleSearch.Valid;
    var search := new CycleSearch(graph);
    var nodes := Sorted(graph.Keys);
    for i := 0 to |nodes|
      invariant search.Valid() && search.graph == graph && search.stack == []
      invariant forall k :: 0 <= k < i ==> search.IsBlack(nodes[k])
    {
      assert nodes[i] in graph;
      search.NothingGray(nodes[i]);
      if search.color[nodes[i]] == WHITE {
        ghost var last := search.color;
        found := search.Visit(nodes[i]);
        if found.Some? {
          CycleRefutes(graph, found.value);
          return;
        }
        BlacksStay(last, search.color, nodes, i);
      }
    }
    search.AllBlack();
    found := None;
  }

  lemma CycleRefutes(graph: Graph, walk: seq<nat>)
    requires IsClosedWalk(graph, walk)
    ensures !Acyclic(graph)
  {
  }

  // ----- forbidden edges -----------------------------------------------------------------------

  /** A direct dependency of a generic crate on a Doom crate. */
  predicate Forbidden(kinds: map<nat, Kind>, graph: Graph, a: nat, b: nat) {
    && a in graph && b in graph[a]
    && a in kinds && kinds[a] == Generic && b in kinds && kinds[b] == Doom
  }

  method FindForbiddenEdges(kinds: map<nat, Kind>, graph: Graph) returns (violations: seq<(nat, nat)>)
    ensures forall a: nat, b: nat :: (a, b) in violations <==> Forbidden(kinds, graph, a, b)
  {
    violations := [];
    var packages := Sorted(graph.Keys);
    for i := 0 to |packages|
      invariant forall a: nat, b: nat :: (a, b) in violations <==> a in packages[..i] && Forbidden(kinds, graph, a, b)
    {
      var package := packages[i];
      assert package in graph;
      if package !in kinds || kinds[package] != Generic {
        continue;
      }
      violations := AddDoomEdges(kinds, package, Sorted(graph[package]), violations);
    }
  }

  /** The inner loop, over the dependencies of one generic package. */
  method AddDoomEdges(kinds: map<nat, Kind>, package: nat, deps: seq<nat>, violations: seq<(nat, nat)>)
    returns (r: seq<(nat, nat)>)
    ensures forall a: nat, b: nat :: (a, b) in r <==>
              (a, b) in violations || (a == package && b in deps && b in kinds && kinds[b] == Doom)
  {
    r := violations;
    for k := 0 to |deps|
      invariant forall a: nat, b: nat :: (a, b) in r <==>
                  (a, b) in violations || (a == package && b in deps[..k] && b in kinds && kinds[b] == Doom)
    {
      if deps[k] in kinds && kinds[deps[k]] == Doom {
        r := r + [(package, deps[k])];
      }
    }
  }

  /** A walk from a generic crate to a Doom crate: a dependency, direct or transitive. */
  predicate Leak(kinds: map<nat, Kind>, graph: Graph, walk: seq<nat>) {
    && |walk| >= 2 && IsWalk(graph, walk)
    && walk[0] in kinds && kinds[walk[0]] == Generic
    && walk[|walk| - 1] in kinds && kinds[walk[|walk| - 1]] == Doom
  }

  /** Nothing between its ends is classified. */
  predicate Detour(kinds: map<nat, Kind>, walk: seq<nat>) {
    forall i :: 0 < i < |walk| - 1 ==> walk[i] !in kinds
  }

  /** Every leak contains one whose interior is unclassified. */
  lemma {:induction false} LeakHasDetour(kinds: map<nat, Kind>, graph: Graph, walk: seq<nat>)
    returns (short: seq<nat>)
    requires Leak(kinds, graph, walk)
    ensures Leak(kinds, graph, short) && Detour(kinds, short)
    decreases |walk|
  {
    if Detour(kinds, walk) {
      short := walk;
    } else {
      var i :| 0 < i < |walk| - 1 && walk[i] in kinds;
      if kinds[walk[i]] == Generic {
        SubWalk(graph, walk, i, |walk|);
        short := LeakHasDetour(kinds, graph, walk[i..]);
      } else {
        SubWalk(graph, walk, 0, i + 1);
        assert walk[0..i + 1][|walk[0..i + 1]| - 1] == walk[i];
        short := LeakHasDetour(kinds, graph, walk[0..i + 1]);
      }
    }
  }

  lemma SubWalk(graph: Graph, walk: seq<nat>, lo: nat, hi: nat)
    requires lo <= hi <= |walk| && IsWalk(graph, walk)
    ensures IsWalk(graph, walk[lo..hi]) && walk[lo..] == walk[lo..|walk|]
  {
    var sub := walk[lo..hi];
    forall i | 0 <= i < |sub| - 1 ensures sub[i] in graph && sub[i + 1] in graph[sub[i]] {
      assert walk[lo + i] in graph && walk[lo + i + 1] in graph[walk[lo + i]];
    }
  }

  /**
   * What the direct check decides about the rule "directly or transitively": with no forbidden
   * edge, the rule is broken exactly when some leak of two edges or more passes through
   * unclassified packages only.
   */
  lemma DirectCheckExactly(kinds: map<nat, Kind>, graph: Graph)
    requires forall a: nat, b: nat :: !Forbidden(kinds, graph, a, b)
    ensures (exists walk :: Leak(kinds, graph, walk))
            <==> exists walk :: Leak(kinds, graph, walk) && |walk| > 2 && Detour(kinds, walk)
  {
    if walk :| Leak(kinds, graph, walk) {
      var short := LeakHasDetour(kinds, graph, walk);
      assert |short| == 2 ==> Forbidden(kinds, graph, short[0], short[1]);
    }
  }

  /** When every package is classified, no forbidden edge means no generic crate reaches a Doom crate at all. */
  lemma NoForbiddenEdgeNoLeak(kinds: map<nat, Kind>, graph: Graph, walk: seq<nat>)
    requires Closed(graph) && forall n :: n in graph ==> n in kinds
    requires forall a: nat, b: nat :: !Forbidden(kinds, graph, a, b)
    ensures !Leak(kinds, graph, walk)
  {
    if Leak(kinds, graph, walk) {
      var short := LeakHasDetour(kinds, graph, walk);
      assert short[0] in graph && short[1] in graph[short[0]];
      assert |short| == 2 ==> Forbidden(kinds, graph, short[0], short[1]);
    }
  }

  /** An unclassified package can hide a leak from the check. */
  lemma UnclassifiedHidesLeak()
    ensures var kinds := map[0 := Generic, 2 := Doom];
            var graph: Graph := map[0 := {1}, 1 := {2}, 2 := {}];
            && Closed(graph) && (forall a: nat, b: nat :: !Forbidden(kinds, graph, a, b))
            && Leak(kinds, graph, [0, 1, 2])
  {
  }
}
