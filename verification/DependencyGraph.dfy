/** The CMDB dependency graph and its breadth-first traversal. */
module DependencyGraph {
  import opened Basics

  datatype Edge = Edge(parent: int, child: int)

  datatype Direction = Up | Down

  function From(e: Edge, direction: Direction): int { if direction == Down then e.parent else e.child }

  function To(e: Edge, direction: Direction): int { if direction == Down then e.child else e.parent }

  predicate Arrow(edges: seq<Edge>, direction: Direction, a: int, b: int) {
    exists i :: 0 <= i < |edges| && From(edges[i], direction) == a && To(edges[i], direction) == b
  }

  /** Down runs from parent to child, up from child to parent. */
  lemma {:induction false} ArrowIs(edges: seq<Edge>, a: int, b: int)
    ensures Arrow(edges, Down, a, b) <==> Edge(a, b) in edges
    ensures Arrow(edges, Up, a, b) <==> Edge(b, a) in edges
  {
    if Edge(a, b) in edges {
      var i :| 0 <= i < |edges| && edges[i] == Edge(a, b);
      assert From(edges[i], Down) == a && To(edges[i], Down) == b;
    }
    if Edge(b, a) in edges {
      var i :| 0 <= i < |edges| && edges[i] == Edge(b, a);
      assert From(edges[i], Up) == a && To(edges[i], Up) == b;
    }
  }

  // ---------------------------------------------------------------- distance

  /** A path: every step follows an edge. */
  ghost predicate IsPath(edges: seq<Edge>, direction: Direction, p: seq<int>) {
    p != [] && forall i, j | 0 <= i < |p| && j == i + 1 && j < |p| :: Arrow(edges, direction, p[i], p[j])
  }

  ghost predicate Connects(edges: seq<Edge>, direction: Direction, p: seq<int>, a: int, b: int) {
    IsPath(edges, direction, p) && p[0] == a && p[|p| - 1] == b
  }

  /** `b` is exactly `d` steps from `a`: a path of that length, and none shorter. */
  ghost predicate Distance(edges: seq<Edge>, direction: Direction, a: int, b: int, d: int) {
    && (exists p :: Connects(edges, direction, p, a, b) && |p| == d + 1)
    && (forall p :: Connects(edges, direction, p, a, b) ==> |p| >= d + 1)
  }

  /** What at most `d` steps reach. */
  ghost predicate Within(edges: seq<Edge>, direction: Direction, a: int, b: int, d: int)
    decreases d
  {
    if d < 0 then false
    else if d == 0 then b == a
    else
      || Within(edges, direction, a, b, d - 1)
      || exists x :: Within(edges, direction, a, x, d - 1) && Arrow(edges, direction, x, b)
  }

  lemma {:induction false} PathSnoc(edges: seq<Edge>, direction: Direction, p: seq<int>, a: int, x: int, b: int)
    requires Connects(edges, direction, p, a, x) && Arrow(edges, direction, x, b)
    ensures Connects(edges, direction, p + [b], a, b)
  {
    var q := p + [b];
    forall i, j | 0 <= i < |q| && j == i + 1 && j < |q| ensures Arrow(edges, direction, q[i], q[j]) {
      if j < |p| {
        assert Arrow(edges, direction, p[i], p[j]);
      }
    }
  }

  lemma {:induction false} WithinHasPath(edges: seq<Edge>, direction: Direction, a: int, b: int, d: nat)
    returns (p: seq<int>)
    requires Within(edges, direction, a, b, d)
    ensures Connects(edges, direction, p, a, b) && |p| <= d + 1
    decreases d
  {
    if d == 0 {
      p := [a];
    } else if Within(edges, direction, a, b, d - 1) {
      p := WithinHasPath(edges, direction, a, b, d - 1);
    } else {
      var x :| Within(edges, direction, a, x, d - 1) && Arrow(edges, direction, x, b);
      p := WithinHasPath(edges, direction, a, x, d - 1);
      PathSnoc(edges, direction, p, a, x, b);
      p := p + [b];
    }
  }

  lemma {:induction false} PathIsWithin(edges: seq<Edge>, direction: Direction, p: seq<int>, a: int, b: int)
    requires Connects(edges, direction, p, a, b)
    ensures Within(edges, direction, a, b, |p| - 1)
    decreases |p|
  {
    if |p| > 1 {
      var q, x := p[..|p| - 1], p[|p| - 2];
      forall i, j | 0 <= i < |q| && j == i + 1 && j < |q| ensures Arrow(edges, direction, q[i], q[j]) {
        assert Arrow(edges, direction, p[i], p[j]);
      }
      PathIsWithin(edges, direction, q, a, x);
      assert Arrow(edges, direction, p[|p| - 2], p[|p| - 1]);
    }
  }

  lemma {:induction false} WithinGrows(edges: seq<Edge>, direction: Direction, a: int, b: int, d: nat, e: nat)
    requires Within(edges, direction, a, b, d) && d <= e
    ensures Within(edges, direction, a, b, e)
    decreases e - d
  {
    if d < e {
      WithinGrows(edges, direction, a, b, d, e - 1);
    }
  }

  /** Exactly `d` steps is: within `d` and not within `d - 1`. */
  lemma {:induction false} DistanceIsWithin(edges: seq<Edge>, direction: Direction, a: int, b: int, d: nat)
    ensures Distance(edges, direction, a, b, d)
            <==> Within(edges, direction, a, b, d) && !Within(edges, direction, a, b, d - 1)
  {
    if Within(edges, direction, a, b, d) && !Within(edges, direction, a, b, d - 1) {
      var p := WithinHasPath(edges, direction, a, b, d);
      forall q | Connects(edges, direction, q, a, b) ensures |q| >= d + 1 {
        PathIsWithin(edges, direction, q, a, b);
        if |q| - 1 < d {
          WithinGrows(edges, direction, a, b, |q| - 1, d - 1);
        }
      }
    }
    if Distance(edges, direction, a, b, d) {
      var p :| Connects(edges, direction, p, a, b) && |p| == d + 1;
      PathIsWithin(edges, direction, p, a, b);
      if Within(edges, direction, a, b, d - 1) {
        var q := WithinHasPath(edges, direction, a, b, d - 1);
      }
    }
  }

  // ---------------------------------------------------------------- one layer after the other

  ghost predicate Exactly(edges: seq<Edge>, direction: Direction, a: int, b: int, d: int) {
    Within(edges, direction, a, b, d) && !Within(edges, direction, a, b, d - 1)
  }

  /** A new asset of the next layer is a neighbour of the last layer. */
  lemma {:induction false} NextLayer(edges: seq<Edge>, direction: Direction, a: int, b: int, d: nat) returns (x: int)
    requires Exactly(edges, direction, a, b, d + 1)
    ensures Exactly(edges, direction, a, x, d) && Arrow(edges, direction, x, b)
  {
    x :| Within(edges, direction, a, x, d) && Arrow(edges, direction, x, b);
  }

  /** When a layer is empty, so are all later ones. */
  lemma {:induction false} NothingFurther(edges: seq<Edge>, direction: Direction, a: int, d: nat, e: nat, b: int)
    requires d <= e && forall x :: !Exactly(edges, direction, a, x, d)
    ensures !Exactly(edges, direction, a, b, e)
    decreases e - d
  {
    if d < e && Exactly(edges, direction, a, b, e) {
      var x := NextLayer(edges, direction, a, b, e - 1);
      NothingFurther(edges, direction, a, d, e - 1, x);
    }
  }

  /** The neighbours of one asset, in the order of the rows. */
  method Neighbours(edges: seq<Edge>, direction: Direction, a: int) returns (r: seq<int>)
    ensures forall b :: b in r <==> Arrow(edges, direction, a, b)
  {
    r := [];
    for i := 0 to |edges|
      invariant forall b :: b in r <==> exists j :: 0 <= j < i && From(edges[j], direction) == a && To(edges[j], direction) == b
    {
      if From(edges[i], direction) == a {
        r := r + [To(edges[i], direction)];
      }
    }
  }

  predicate Unique(s: seq<(int, int)>) { forall i, j | 0 <= i < j < |s| :: s[i].0 != s[j].0 }

  predicate NonDecreasing(s: seq<(int, int)>) { forall i, j | 0 <= i < j < |s| :: s[i].1 <= s[j].1 }

  /** The results so far: every asset of layers 1 to `depth`, each once, nearest first. */
  ghost predicate Layers(edges: seq<Edge>, direction: Direction, start: int, depth: nat, results: seq<(int, int)>) {
    && Unique(results) && NonDecreasing(results)
    && (forall x, d :: (x, d) in results <==> 1 <= d <= depth && Exactly(edges, direction, start, x, d))
  }

  /** What has been found of the layer after `depth`. */
  ghost predicate Finding(edges: seq<Edge>, direction: Direction, start: int, depth: nat, visited: set<int>, next: seq<int>) {
    && (forall x :: x in visited <==> Within(edges, direction, start, x, depth) || x in next)
    && (forall x :: x in next ==> Exactly(edges, direction, start, x, depth + 1))
    && (forall i, j | 0 <= i < j < |next| :: next[i] != next[j])
  }

  /** Marks the unseen neighbours of one asset of the layer. */
  method VisitNeighbours(edges: seq<Edge>, direction: Direction, ghost start: int, ghost depth: nat, current: int,
                         visited0: set<int>, next0: seq<int>)
    returns (visited: set<int>, next: seq<int>)
    requires Exactly(edges, direction, start, current, depth) && Finding(edges, direction, start, depth, visited0, next0)
    ensures Finding(edges, direction, start, depth, visited, next) && next0 <= next
    ensures forall b :: Arrow(edges, direction, current, b) ==> b in visited
  {
    visited, next := visited0, next0;
    var neighbours := Neighbours(edges, direction, current);
    for i := 0 to |neighbours|
      invariant Finding(edges, direction, start, depth, visited, next) && next0 <= next
      invariant forall j :: 0 <= j < i ==> neighbours[j] in visited
    {
      if neighbours[i] !in visited {
        assert Arrow(edges, direction, current, neighbours[i]);
        assert Within(edges, direction, start, neighbours[i], depth + 1);
        visited := visited + {neighbours[i]};
        next := next + [neighbours[i]];
      }
    }
  }

  /** All neighbours of the layer were visited: what was found is the whole next layer. */
  lemma {:induction false} LayerDone(edges: seq<Edge>, direction: Direction, start: int, depth: nat, frontier: seq<int>,
                                     visited: set<int>, next: seq<int>)
    requires Finding(edges, direction, start, depth, visited, next)
    requires forall x :: Exactly(edges, direction, start, x, depth) ==> x in frontier
    requires forall x, b :: x in frontier && Arrow(edges, direction, x, b) ==> b in visited
    ensures forall x :: x in next <==> Exactly(edges, direction, start, x, depth + 1)
    ensures forall x :: x in visited <==> Within(edges, direction, start, x, depth + 1)
  {
    forall b | Exactly(edges, direction, start, b, depth + 1) ensures b in next {
      var x := NextLayer(edges, direction, start, b, depth);
      assert b in visited;
    }
    forall b | Within(edges, direction, start, b, depth) ensures Within(edges, direction, start, b, depth + 1) {
      WithinGrows(edges, direction, start, b, depth, depth + 1);
    }
  }

  /** Visits one whole layer. */
  method VisitLayer(edges: seq<Edge>, direction: Direction, ghost start: int, ghost depth: nat, frontier: seq<int>, visited0: set<int>)
    returns (visited: set<int>, next: seq<int>)
    requires forall x :: x in frontier <==> Exactly(edges, direction, start, x, depth)
    requires forall x :: x in visited0 <==> Within(edges, direction, start, x, depth)
    ensures forall x :: x in next <==> Exactly(edges, direction, start, x, depth + 1)
    ensures forall x :: x in visited <==> Within(edges, direction, start, x, depth + 1)
    ensures forall i, j | 0 <= i < j < |next| :: next[i] != next[j]
  {
    visited, next := visited0, [];
    for i := 0 to |frontier|
      invariant Finding(edges, direction, start, depth, visited, next)
      invariant forall k, b | 0 <= k < i && Arrow(edges, direction, frontier[k], b) :: b in visited
    {
      var before := visited;
      visited, next := VisitNeighbours(edges, direction, start, depth, frontier[i], visited, next);
      assert before <= visited by {
        assert forall x :: x in before ==> x in visited;
      }
    }
    LayerDone(edges, direction, start, depth, frontier, visited, next);
  }

  function AtDepth(layer: seq<int>, depth: int): (r: seq<(int, int)>)
    ensures |r| == |layer| && forall i :: 0 <= i < |layer| ==> r[i] == (layer[i], depth)
  {
    seq(|layer|, i requires 0 <= i < |layer| => (layer[i], depth))
  }

  lemma {:induction false} OneMoreLayer(edges: seq<Edge>, direction: Direction, start: int, depth: nat,
                                        results: seq<(int, int)>, next: seq<int>)
    requires Layers(edges, direction, start, depth, results)
    requires forall x :: x in next <==> Exactly(edges, direction, start, x, depth + 1)
    requires forall i, j | 0 <= i < j < |next| :: next[i] != next[j]
    ensures Layers(edges, direction, start, depth + 1, results + AtDepth(next, depth + 1))
  {
    var added := AtDepth(next, depth + 1);
    var more := results + added;
    forall x, d ensures (x, d) in more <==> 1 <= d <= depth + 1 && Exactly(edges, direction, start, x, d) {
      assert (x, d) in added <==> x in next && d == depth + 1 by {
        if x in next && d == depth + 1 {
          var i :| 0 <= i < |next| && next[i] == x;
          assert added[i] == (x, d);
        }
      }
    }
    forall i, j | 0 <= i < j < |more| ensures more[i].0 != more[j].0 && more[i].1 <= more[j].1 {
      if i < |results| <= j {
        assert (results[i].0, results[i].1) in results && next[j - |results|] in next;
        WithinGrows(edges, direction, start, results[i].0, results[i].1, depth);
      }
    }
  }

  /** Breadth-first: every asset at distance 1 to `maxDepth`, once, with that exact distance, nearest first. The start
      is not among them, cycles or not. */
  method Traverse(edges: seq<Edge>, direction: Direction, start: int, maxDepth: int) returns (results: seq<(int, int)>)
    ensures forall x, d :: (x, d) in results <==> 1 <= d <= maxDepth && Distance(edges, direction, start, x, d)
    ensures Unique(results) && NonDecreasing(results)
    ensures forall i :: 0 <= i < |results| ==> results[i].0 != start
    ensures maxDepth >= 1 ==>
              forall x :: (x, 1) in results <==> x != start && (if direction == Down then Edge(start, x) else Edge(x, start)) in edges
  {
    var visited, frontier, depth := {start}, [start], 0;
    results := [];
    while frontier != [] && depth < maxDepth
      invariant 0 <= depth <= Max(0, maxDepth)
      invariant forall x :: x in frontier <==> Exactly(edges, direction, start, x, depth)
      invariant forall x :: x in visited <==> Within(edges, direction, start, x, depth)
      invariant Layers(edges, direction, start, depth, results)
      decreases maxDepth - depth
    {
      var next;
      visited, next := VisitLayer(edges, direction, start, depth, frontier, visited);
      OneMoreLayer(edges, direction, start, depth, results, next);
      depth := depth + 1;
      results := results + AtDepth(next, depth);
      frontier := next;
    }
    AllLayers(edges, direction, start, depth, maxDepth, frontier, results);
    forall x ensures Distance(edges, direction, start, x, 1) <==>
                     x != start && (if direction == Down then Edge(start, x) else Edge(x, start)) in edges
    {
      NextTo(edges, direction, start, x);
    }
  }

  /** One step away: a direct neighbour. */
  lemma {:induction false} NextTo(edges: seq<Edge>, direction: Direction, a: int, b: int)
    ensures Distance(edges, direction, a, b, 1) <==>
            b != a && (if direction == Down then Edge(a, b) else Edge(b, a)) in edges
  {
    ArrowIs(edges, a, b);
    DistanceIsWithin(edges, direction, a, b, 1);
  }

  function Opposite(direction: Direction): Direction { if direction == Down then Up else Down }

  function Reversed(p: seq<int>): (r: seq<int>)
    ensures |r| == |p| && forall i :: 0 <= i < |p| ==> r[i] == p[|p| - 1 - i]
  {
    seq(|p|, i requires 0 <= i < |p| => p[|p| - 1 - i])
  }

  lemma {:induction false} PathReversed(edges: seq<Edge>, direction: Direction, p: seq<int>, a: int, b: int)
    requires Connects(edges, direction, p, a, b)
    ensures Connects(edges, Opposite(direction), Reversed(p), b, a)
  {
    var q := Reversed(p);
    forall i, j | 0 <= i < |q| && j == i + 1 && j < |q| ensures Arrow(edges, Opposite(direction), q[i], q[j]) {
      assert Arrow(edges, direction, p[|p| - 1 - j], p[|p| - 1 - i]);
      ArrowIs(edges, q[j], q[i]);
      ArrowIs(edges, q[i], q[j]);
    }
  }

  /** The two directions are each other's inverse: `b` is `d` steps below `a` exactly when `a` is `d` steps above `b`. */
  lemma {:induction false} DistanceReversed(edges: seq<Edge>, direction: Direction, a: int, b: int, d: int)
    requires Distance(edges, direction, a, b, d)
    ensures Distance(edges, Opposite(direction), b, a, d)
  {
    var p :| Connects(edges, direction, p, a, b) && |p| == d + 1;
    PathReversed(edges, direction, p, a, b);
    forall q | Connects(edges, Opposite(direction), q, b, a) ensures |q| >= d + 1 {
      PathReversed(edges, Opposite(direction), q, b, a);
      assert Connects(edges, direction, Reversed(q), a, b);
    }
  }

  lemma {:induction false} AllLayers(edges: seq<Edge>, direction: Direction, start: int, depth: nat, maxDepth: int,
                                     frontier: seq<int>, results: seq<(int, int)>)
    requires Layers(edges, direction, start, depth, results) && depth <= Max(0, maxDepth)
    requires forall x :: x in frontier <==> Exactly(edges, direction, start, x, depth)
    requires frontier == [] || depth >= maxDepth
    ensures forall x, d :: (x, d) in results <==> 1 <= d <= maxDepth && Distance(edges, direction, start, x, d)
    ensures forall i :: 0 <= i < |results| ==> results[i].0 != start
  {
    forall x, d ensures (x, d) in results <==> 1 <= d <= maxDepth && Distance(edges, direction, start, x, d) {
      if d >= 1 {
        DistanceIsWithin(edges, direction, start, x, d);
        if depth < d <= maxDepth {
          NothingFurther(edges, direction, start, depth, d, x);
        }
      }
    }
    forall i | 0 <= i < |results| ensures results[i].0 != start {
      var x, d := results[i].0, results[i].1;
      assert (x, d) in results;
      WithinGrows(edges, direction, start, start, 0, d - 1);
    }
  }
}
