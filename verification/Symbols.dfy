/** The innermost definition around a line, found by a breadth-first walk over a syntax tree. */
module Symbols {
  import opened Options

  // A node of Python's syntax tree; `isSymbol` marks functions and classes.
  datatype Node = Node(isSymbol: bool, name: string, line: int, endLine: Option<int>, children: seq<Node>)

  function EndOf(n: Node): int {
    if n.endLine.Some? && n.endLine.value != 0 then n.endLine.value else n.line
  }

  predicate Contains(n: Node, line: int) {
    n.isSymbol && n.line <= line <= EndOf(n)
  }

  // ----- places in the tree -----

  // The node reached by taking the children with these indices in turn.
  function At(root: Node, p: seq<nat>): Option<Node>
    decreases |p|
  {
    if p == [] then Some(root)
    else if p[0] < |root.children| then At(root.children[p[0]], p[1..])
    else None
  }

  predicate Matches(root: Node, p: seq<nat>, line: int) {
    At(root, p).Some? && Contains(At(root, p).value, line)
  }

  // Of any two definitions around the line, one lies inside the other.
  ghost predicate Nested(root: Node, line: int) {
    forall p, q :: Matches(root, p, line) && Matches(root, q, line) ==> p <= q || q <= p
  }

  lemma {:induction false} AtChild(root: Node, p: seq<nat>, k: nat)
    ensures At(root, p + [k]) ==
            if At(root, p).Some? && k < |At(root, p).value.children| then Some(At(root, p).value.children[k]) else None
    decreases |p|
  {
    if p == [] {
      assert p + [k] == [k];
      assert [k][1..] == [];
    } else {
      assert (p + [k])[1..] == p[1..] + [k];
      if p[0] < |root.children| {
        AtChild(root.children[p[0]], p[1..], k);
      }
    }
  }

  lemma {:induction false} AtPrefix(root: Node, p: seq<nat>, k: nat)
    requires At(root, p).Some? && k <= |p|
    ensures At(root, p[..k]).Some?
    decreases |p|
  {
    if k > 0 {
      assert p[..k][1..] == p[1..][..k - 1];
      AtPrefix(root.children[p[0]], p[1..], k - 1);
    }
  }

  // ----- sizes, for termination -----

  function Size(n: Node): nat {
    1 + SizeAll(n.children)
  }

  function SizeAll(nodes: seq<Node>): nat {
    if nodes == [] then 0 else Size(nodes[0]) + SizeAll(nodes[1..])
  }

  lemma {:induction false} SizeAllConcat(a: seq<Node>, b: seq<Node>)
    ensures SizeAll(a + b) == SizeAll(a) + SizeAll(b)
  {
    if a == [] {
      assert a + b == b;
    } else {
      assert (a + b)[1..] == a[1..] + b;
      SizeAllConcat(a[1..], b);
    }
  }

  // ----- the walk -----

  // The queue holds the nodes at these places, in order of depth, over at most two levels.
  ghost predicate Queued(root: Node, queue: seq<Node>, places: seq<seq<nat>>) {
    && |places| == |queue|
    && (forall i :: 0 <= i < |places| ==> At(root, places[i]) == Some(queue[i]))
    && (forall i, j :: 0 <= i <= j < |places| ==> |places[i]| <= |places[j]| <= |places[0]| + 1)
  }

  // Every place of the tree has been visited or lies at or below a queued one.
  ghost predicate Covered(root: Node, visited: set<seq<nat>>, places: seq<seq<nat>>) {
    forall p :: At(root, p).Some? && p !in visited ==> exists i :: 0 <= i < |places| && places[i] <= p
  }

  // The result so far belongs to a deepest match among the visited places.
  ghost predicate Found(root: Node, line: int, visited: set<seq<nat>>, symbol: Option<string>, best: seq<nat>) {
    if symbol.None? then forall p :: p in visited ==> !Matches(root, p, line)
    else
      && best in visited && Matches(root, best, line) && symbol.value == At(root, best).value.name
      && forall p :: p in visited && Matches(root, p, line) ==> |p| <= |best|
  }

  function ChildPlaces(p: seq<nat>, n: nat): (places: seq<seq<nat>>)
    ensures |places| == n && forall k :: 0 <= k < n ==> places[k] == p + [k]
  {
    seq(n, (k: nat) => p + [k])
  }

  lemma QueuedNext(root: Node, queue: seq<Node>, places: seq<seq<nat>>)
    requires queue != [] && Queued(root, queue, places)
    ensures Queued(root, queue[1..] + queue[0].children, places[1..] + ChildPlaces(places[0], |queue[0].children|))
  {
    var node, p := queue[0], places[0];
    var children := ChildPlaces(p, |node.children|);
    var places', queue' := places[1..] + children, queue[1..] + node.children;
    forall i | 0 <= i < |places'| ensures At(root, places'[i]) == Some(queue'[i]) && |p| <= |places'[i]| <= |p| + 1 {
      if i < |places| - 1 {
        assert places'[i] == places[i + 1] && queue'[i] == queue[i + 1];
      } else {
        var k := i - (|places| - 1);
        AtChild(root, p, k);
        assert places'[i] == p + [k] && queue'[i] == node.children[k];
      }
    }
    forall i, j | 0 <= i <= j < |places'| ensures |places'[i]| <= |places'[j]| <= |places'[0]| + 1 {
      if j < |places| - 1 {
        assert places'[i] == places[i + 1] && places'[j] == places[j + 1];
      } else {
        assert |places'[j]| == |p| + 1;
      }
    }
  }

  lemma CoveredNext(root: Node, visited: set<seq<nat>>, queue: seq<Node>, places: seq<seq<nat>>)
    requires queue != [] && Queued(root, queue, places) && Covered(root, visited, places)
    ensures Covered(root, visited + {places[0]}, places[1..] + ChildPlaces(places[0], |queue[0].children|))
  {
    var node, p := queue[0], places[0];
    var places' := places[1..] + ChildPlaces(p, |node.children|);
    forall q | At(root, q).Some? && q !in visited + {p} ensures exists i :: 0 <= i < |places'| && places'[i] <= q {
      var i :| 0 <= i < |places| && places[i] <= q;
      if i > 0 {
        assert places'[i - 1] == places[i];
      } else {
        assert |q| == |p| ==> q == p;
        var k := q[|p|];
        AtPrefix(root, q, |p| + 1);
        assert q[..|p| + 1] == p + [k];
        AtChild(root, p, k);
        assert places'[|places| - 1 + k] == p + [k];
      }
    }
  }

  // Later places are at least as deep, so a later match replaces the earlier result.
  lemma FoundNext(root: Node, line: int, visited: set<seq<nat>>, symbol: Option<string>, best: seq<nat>,
                  node: Node, p: seq<nat>)
    requires Found(root, line, visited, symbol, best) && At(root, p) == Some(node)
    requires forall q :: q in visited ==> |q| <= |p|
    ensures if Contains(node, line) then Found(root, line, visited + {p}, Some(node.name), p)
            else Found(root, line, visited + {p}, symbol, best)
  {
    assert Matches(root, p, line) <==> Contains(node, line);
  }

  // Visited places are at most as deep as queued ones.
  ghost predicate Before(visited: set<seq<nat>>, places: seq<seq<nat>>) {
    forall p :: p in visited ==> forall i :: 0 <= i < |places| ==> |p| <= |places[i]|
  }

  lemma BeforeNext(root: Node, visited: set<seq<nat>>, queue: seq<Node>, places: seq<seq<nat>>)
    requires queue != [] && Queued(root, queue, places) && Before(visited, places)
    ensures forall q :: q in visited ==> |q| <= |places[0]|
    ensures Before(visited + {places[0]}, places[1..] + ChildPlaces(places[0], |queue[0].children|))
  {
    var p := places[0];
    var places' := places[1..] + ChildPlaces(p, |queue[0].children|);
    forall i | 0 <= i < |places'| ensures |p| <= |places'[i]| {
      if i < |places| - 1 {
        assert places'[i] == places[i + 1];
      } else {
        assert places'[i] == p + [i - (|places| - 1)];
      }
    }
  }

  lemma WalkStarts(root: Node, line: int)
    ensures Queued(root, [root], [[]]) && Covered(root, {}, [[]]) && Found(root, line, {}, None, []) && Before({}, [[]])
  {
    var places: seq<seq<nat>> := [[]];
    forall p | At(root, p).Some? ensures exists i :: 0 <= i < |places| && places[i] <= p {
      assert places[0] <= p;
    }
  }

  lemma WalkEnds(root: Node, line: int, visited: set<seq<nat>>, symbol: Option<string>, best: seq<nat>)
    requires Covered(root, visited, []) && Found(root, line, visited, symbol, best)
    ensures symbol.None? <==> forall p :: !Matches(root, p, line)
    ensures symbol.Some? ==> forall p :: Matches(root, p, line) ==> |p| <= |best|
  {
    assert forall p :: At(root, p).Some? ==> p in visited;
    hide At, Contains;
    forall p | Matches(root, p, line) ensures p in visited {
    }
  }

  method Walk(root: Node, line: int) returns (symbol: Option<string>, ghost best: seq<nat>)
    ensures symbol.None? <==> forall p, n :: At(root, p) == Some(n) ==>
      !(n.isSymbol && n.line <= line <= if n.endLine.None? || n.endLine == Some(0) then n.line else n.endLine.value)
    ensures symbol.Some? ==> At(root, best).Some? && var n := At(root, best).value;
      && symbol.value == n.name && n.isSymbol
      && n.line <= line <= if n.endLine.None? || n.endLine == Some(0) then n.line else n.endLine.value
    ensures symbol.Some? ==>
      forall p, n ::
        && At(root, p) == Some(n) && n.isSymbol
        && n.line <= line <= (if n.endLine.None? || n.endLine == Some(0) then n.line else n.endLine.value)
        ==> |p| <= |best|
  {
    hide At, Covered, Found, Before, Queued, Contains, Matches;
    symbol, best := None, [];
    var queue := [root];
    ghost var places: seq<seq<nat>>, visited: set<seq<nat>> := [[]], {};
    WalkStarts(root, line);
    while queue != []
      invariant Queued(root, queue, places) && Covered(root, visited, places) && Before(visited, places)
      invariant Found(root, line, visited, symbol, best)
      decreases SizeAll(queue)
    {
      QueuedPlaces(root, queue, places);
      var node := queue[0];
      ghost var p := places[0];
      SizeAllConcat(queue[1..], node.children);
      assert SizeAll(queue) == Size(node) + SizeAll(queue[1..]) && Size(node) == 1 + SizeAll(node.children);
      QueuedNext(root, queue, places);
      CoveredNext(root, visited, queue, places);
      BeforeNext(root, visited, queue, places);
      FoundNext(root, line, visited, symbol, best, node, p);
      queue := queue[1..] + node.children;
      places := places[1..] + ChildPlaces(p, |node.children|);
      visited := visited + {p};
      if Contains(node, line) {
        symbol, best := Some(node.name), p;
      }
    }
    QueuedPlaces(root, queue, places);
    FoundIs(root, line, visited, symbol, best);
    WalkEnds(root, line, visited, symbol, best);
    MatchesAre(root, line);
  }

  // The definitions around a line, told by the fields of the nodes.
  lemma MatchesAre(root: Node, line: int)
    ensures forall p :: Matches(root, p, line) <==> At(root, p).Some? && var n := At(root, p).value;
      n.isSymbol && n.line <= line <= if n.endLine.None? || n.endLine == Some(0) then n.line else n.endLine.value
  {
    hide At;
  }

  lemma QueuedPlaces(root: Node, queue: seq<Node>, places: seq<seq<nat>>)
    requires Queued(root, queue, places)
    ensures |places| == |queue| && (queue != [] ==> At(root, places[0]) == Some(queue[0]))
  {
  }

  lemma FoundIs(root: Node, line: int, visited: set<seq<nat>>, symbol: Option<string>, best: seq<nat>)
    requires Found(root, line, visited, symbol, best)
    ensures symbol.Some? ==>
      Matches(root, best, line) && At(root, best).Some? && symbol.value == At(root, best).value.name
  {
  }

  predicate EndsWith(s: string, suffix: string) {
    |suffix| <= |s| && s[|s| - |suffix|..] == suffix
  }

  // `parsed` is the syntax tree of the file, or None if Python cannot parse it.
  method EnclosingSymbol(path: string, parsed: Option<Node>, line: int)
    returns (symbol: Option<string>, ghost best: seq<nat>)
    ensures |path| < 3 || path[|path| - 3..] != ".py" || parsed.None? ==> symbol.None?
    ensures |path| >= 3 && path[|path| - 3..] == ".py" && parsed.Some? ==>
      (symbol.None? <==> forall p, n :: At(parsed.value, p) == Some(n) ==>
         !(n.isSymbol && n.line <= line <= if n.endLine.None? || n.endLine == Some(0) then n.line else n.endLine.value))
    ensures symbol.Some? ==> At(parsed.value, best).Some? && var n := At(parsed.value, best).value;
      && symbol.value == n.name && n.isSymbol
      && n.line <= line <= if n.endLine.None? || n.endLine == Some(0) then n.line else n.endLine.value
    ensures symbol.Some? ==>
      forall p, n ::
        && At(parsed.value, p) == Some(n) && n.isSymbol
        && n.line <= line <= (if n.endLine.None? || n.endLine == Some(0) then n.line else n.endLine.value)
        ==> |p| <= |best| && (Nested(parsed.value, line) ==> p <= best)
  {
    symbol, best := None, [];
    if EndsWith(path, ".py") && parsed.Some? {
      symbol, best := Walk(parsed.value, line);
      MatchesAre(parsed.value, line);
      hide Matches, At, Nested;
      if symbol.Some? && Nested(parsed.value, line) {
        DeepestIsInnermost(parsed.value, line, best);
      }
    }
  }

  // A deepest definition around the line lies inside all others exactly when they are nested.
  lemma DeepestIsInnermost(root: Node, line: int, best: seq<nat>)
    requires Matches(root, best, line) && forall p :: Matches(root, p, line) ==> |p| <= |best|
    ensures Nested(root, line) <==> forall p :: Matches(root, p, line) ==> p <= best
  {
    hide Matches;
    if forall p :: Matches(root, p, line) ==> p <= best {
      forall p, q | Matches(root, p, line) && Matches(root, q, line) ensures p <= q || q <= p {
        if |p| <= |q| {
          assert p == best[..|p|] && q == best[..|q|];
          assert q[..|p|] == p;
        } else {
          assert p[..|q|] == q;
        }
      }
    }
    if Nested(root, line) {
      forall p | Matches(root, p, line) ensures p <= best {
        assert p <= best || best <= p;
        if best <= p {
          assert p == best;
        }
      }
    }
  }
}
