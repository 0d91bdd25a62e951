/** Routing: breadth-first search over the graph whose edges join stations
    that are consecutive on some line, and the first mandatory transfer
    point along the path it finds. */
module Pathfinder {
  import opened Model
  import opened Graph

  /** The adjacency of the network: entry `u` is the set of stations next
      to station `u` on some line. */
  ghost function Adjacency(stations: seq<Station>, lines: seq<Line>): (g: seq<set<nat>>)
    requires WellFormed(stations, lines)
    ensures |g| == |stations|
  {
    AdjacencyUpTo(stations, lines, |stations|)
  }

  /** The adjacency of the first `n` stations. */
  ghost function AdjacencyUpTo(stations: seq<Station>, lines: seq<Line>, n: nat): (g: seq<set<nat>>)
    requires WellFormed(stations, lines) && n <= |stations|
    ensures |g| == n
  {
    if n == 0 then [] else AdjacencyUpTo(stations, lines, n - 1) + [Neighbors(stations, lines, n - 1)]
  }

  lemma {:induction false} AdjacencyAt(stations: seq<Station>, lines: seq<Line>, n: nat, u: nat)
    requires WellFormed(stations, lines) && u < n <= |stations|
    ensures AdjacencyUpTo(stations, lines, n)[u] == Neighbors(stations, lines, u)
  {
    if u < n - 1 {
      AdjacencyAt(stations, lines, n - 1, u);
    }
  }

  /** `w` is a walk in `g`: existing stations, each adjacent to the one
      before. */
  ghost predicate IsWalk(g: seq<set<nat>>, w: seq<nat>) {
    && (forall i :: 0 <= i < |w| ==> w[i] < |g|)
    && (forall i :: 0 <= i < |w| - 1 ==> w[i + 1] in g[w[i]])
  }

  /** `w` is a walk from `start` that ends at `v`. */
  ghost predicate WalkTo(g: seq<set<nat>>, start: nat, v: nat, w: seq<nat>) {
    |w| > 0 && w[0] == start && IsWalk(g, w) && w[|w| - 1] == v
  }

  /** `w` is a walk in `g` from `start` to a station of shape `dest`. */
  ghost predicate Leads(g: seq<set<nat>>, stations: seq<Station>, start: nat, dest: Shape, w: seq<nat>)
    requires |g| == |stations|
  {
    |w| > 0 && w[0] == start && IsWalk(g, w) && stations[w[|w| - 1]].shape == dest
  }

  /** `w` is a walk along the lines of the network from `start` to a
      station of shape `dest`. */
  ghost predicate Reaches(stations: seq<Station>, lines: seq<Line>, start: nat, dest: Shape, w: seq<nat>)
    requires WellFormed(stations, lines)
  {
    Leads(Adjacency(stations, lines), stations, start, dest, w)
  }

  lemma WalkPrefix(g: seq<set<nat>>, w: seq<nat>, k: nat)
    requires IsWalk(g, w) && k <= |w|
    ensures IsWalk(g, w[..k])
  {
    assert forall i :: 0 <= i < k ==> w[..k][i] == w[i];
  }

  // ---------------------------------------------------------------------
  // Bookkeeping of the search

  /** The stations at the ends of the queued paths. */
  ghost function Lasts(queue: seq<seq<nat>>): set<nat>
    decreases |queue|
  {
    if |queue| == 0 then {}
    else (if |queue[0]| > 0 then {queue[0][|queue[0]| - 1]} else {}) + Lasts(queue[1..])
  }

  lemma {:induction false} LastsSnoc(queue: seq<seq<nat>>, p: seq<nat>)
    requires |p| > 0
    ensures Lasts(queue + [p]) == Lasts(queue) + {p[|p| - 1]}
    decreases |queue|
  {
    if |queue| == 0 {
      assert (queue + [p])[1..] == [];
    } else {
      assert (queue + [p])[1..] == queue[1..] + [p];
      LastsSnoc(queue[1..], p);
    }
  }

  lemma {:induction false} LastsMember(queue: seq<seq<nat>>, v: nat)
    requires v in Lasts(queue)
    ensures exists i :: 0 <= i < |queue| && |queue[i]| > 0 && queue[i][|queue[i]| - 1] == v
    decreases |queue|
  {
    if !(|queue[0]| > 0 && queue[0][|queue[0]| - 1] == v) {
      LastsMember(queue[1..], v);
      var i :| 0 <= i < |queue[1..]| && |queue[1..][i]| > 0 && queue[1..][i][|queue[1..][i]| - 1] == v;
      assert queue[i + 1] == queue[1..][i];
    }
  }

  /** A set of indices below `n` has at most `n` elements. */
  lemma BoundedSetSize(s: set<nat>, n: nat)
    requires forall x :: x in s ==> x < n
    ensures |s| <= n
    decreases n
  {
    if n > 0 {
      BoundedSetSize(s - {n - 1}, n - 1);
    }
  }

  lemma StrictSubsetSize(a: set<nat>, b: set<nat>)
    requires a <= b && a != b
    ensures |a| < |b|
  {
    assert b == a + (b - a);
    assert |b - a| > 0;
  }

  /** Every recorded length is no longer than any walk to that station. */
  ghost predicate Optimal(g: seq<set<nat>>, start: nat, dist: map<nat, nat>)
  {
    forall v, w :: v in dist && WalkTo(g, start, v, w) ==> dist[v] <= |w|
  }

  /** A path held in the queue: a walk from `start` without repetitions,
      through visited stations only, whose length is recorded. */
  ghost predicate Queued(g: seq<set<nat>>, start: nat, visited: set<nat>,
                         dist: map<nat, nat>, p: seq<nat>)
  {
    && |p| > 0
    && WalkTo(g, start, p[|p| - 1], p)
    && NoDup(p)
    && (forall k :: 0 <= k < |p| ==> p[k] in visited)
    && p[|p| - 1] in dist && dist[p[|p| - 1]] == |p|
  }

  /** Closure of the search: every neighbour of an expanded station is
      visited. */
  ghost predicate Closed(g: seq<set<nat>>, expanded: set<nat>, visited: set<nat>)
  {
    (forall x :: x in expanded ==> x < |g|) && forall x, y :: x in expanded && 0 <= x < |g| && y in g[x] ==> y in visited
  }

  /** A walk that leaves the visited set is longer than the current level:
      it must pass an unexpanded visited station, whose recorded length is
      at least `level`. */
  lemma {:induction false} Frontier(g: seq<set<nat>>, start: nat,
                                    visited: set<nat>, expanded: set<nat>, dist: map<nat, nat>,
                                    level: nat, w: seq<nat>)
    requires start in visited && visited <= dist.Keys
    requires Closed(g, expanded, visited)
    requires forall v :: v in visited && v !in expanded ==> dist[v] >= level
    requires Optimal(g, start, dist)
    requires |w| > 0 && WalkTo(g, start, w[|w| - 1], w) && w[|w| - 1] !in visited
    ensures |w| >= level + 1
    decreases |w|
  {
    var n := |w|;
    var front := w[..n - 1];
    WalkPrefix(g, w, n - 1);
    var x := front[n - 2];
    assert WalkTo(g, start, x, front);
    assert w[n - 1] in g[w[n - 2]];
    if x !in visited {
      Frontier(g, start, visited, expanded, dist, level, front);
    }
  }

  /** A walk from `start` never leaves a visited set closed under expansion. */
  lemma {:induction false} StaysVisited(g: seq<set<nat>>, start: nat,
                                        visited: set<nat>, w: seq<nat>)
    requires start in visited && Closed(g, visited, visited)
    requires |w| > 0 && WalkTo(g, start, w[|w| - 1], w)
    ensures w[|w| - 1] in visited
    decreases |w|
  {
    var n := |w|;
    if n > 1 {
      var front := w[..n - 1];
      WalkPrefix(g, w, n - 1);
      assert WalkTo(g, start, front[n - 2], front);
      StaysVisited(g, start, visited, front);
      assert w[n - 1] in g[w[n - 2]];
    }
  }

  /** The whole state of the search.  `active` holds the station being
      expanded, if any; every other visited station is either expanded or
      at the end of a queued path. */
  ghost predicate Searching(g: seq<set<nat>>, stations: seq<Station>, start: nat, dest: Shape,
                            queue: seq<seq<nat>>, visited: set<nat>, expanded: set<nat>,
                            active: set<nat>, dist: map<nat, nat>, level: nat)
    requires |g| == |stations|
  {
    && start in visited && dist.Keys == visited
    && (forall v :: v in visited ==> v < |stations| && stations[v].shape != dest)
    && (forall i :: 0 <= i < |queue| ==> Queued(g, start, visited, dist, queue[i]))
    && (forall i, j :: 0 <= i < j < |queue| ==> |queue[i]| <= |queue[j]|)
    && (forall i :: 0 <= i < |queue| ==> level <= |queue[i]| <= level + 1)
    && (forall v :: v in visited ==> v in expanded || v in active || v in Lasts(queue))
    && (forall v :: v in visited && v !in expanded ==> dist[v] >= level)
    && Closed(g, expanded, visited)
    && Optimal(g, start, dist)
  }

  lemma SearchingIntro(g: seq<set<nat>>, stations: seq<Station>, start: nat, dest: Shape,
                       queue: seq<seq<nat>>, visited: set<nat>, expanded: set<nat>,
                       active: set<nat>, dist: map<nat, nat>, level: nat)
    requires |g| == |stations|
    requires start in visited && dist.Keys == visited
    requires forall v :: v in visited ==> v < |stations| && stations[v].shape != dest
    requires forall i :: 0 <= i < |queue| ==> Queued(g, start, visited, dist, queue[i])
    requires forall i, j :: 0 <= i < j < |queue| ==> |queue[i]| <= |queue[j]|
    requires forall i :: 0 <= i < |queue| ==> level <= |queue[i]| <= level + 1
    requires forall v :: v in visited ==> v in expanded || v in active || v in Lasts(queue)
    requires forall v :: v in visited && v !in expanded ==> dist[v] >= level
    requires Closed(g, expanded, visited)
    requires Optimal(g, start, dist)
    ensures Searching(g, stations, start, dest, queue, visited, expanded, active, dist, level)
  {
  }

  lemma SearchStart(g: seq<set<nat>>, stations: seq<Station>, start: nat, dest: Shape)
    requires |g| == |stations| && start < |stations| && stations[start].shape != dest
    ensures Searching(g, stations, start, dest, [[start]], {start}, {}, {}, map[start := 1], 1)
  {
    var queue := [[start]];
    assert Lasts(queue) == {start} by {
      assert queue[0][|queue[0]| - 1] == start;
    }
    assert Queued(g, start, {start}, map[start := 1], queue[0]);
  }

  /** Taking the head of the queue for expansion raises the level to its
      length. */
  lemma SearchPop(g: seq<set<nat>>, stations: seq<Station>, start: nat, dest: Shape,
                  queue: seq<seq<nat>>, visited: set<nat>, expanded: set<nat>,
                  dist: map<nat, nat>, level: nat)
    requires |g| == |stations| && |queue| > 0
    requires Searching(g, stations, start, dest, queue, visited, expanded, {}, dist, level)
    ensures Queued(g, start, visited, dist, queue[0]) && level <= |queue[0]|
    ensures Searching(g, stations, start, dest, queue[1..], visited, expanded,
                      {queue[0][|queue[0]| - 1]}, dist, |queue[0]|)
  {
    var p := queue[0];
    forall v | v in visited && v !in expanded ensures dist[v] >= |p| {
      LastsMember(queue, v);
      var i :| 0 <= i < |queue| && |queue[i]| > 0 && queue[i][|queue[i]| - 1] == v;
      assert Queued(g, start, visited, dist, queue[i]);
    }
    var t := queue[1..];
    assert forall i :: 0 <= i < |t| ==> t[i] == queue[i + 1];
  }

  lemma QueuedGrow(g: seq<set<nat>>, start: nat, visited: set<nat>,
                   dist: map<nat, nat>, p: seq<nat>, y: nat, d: nat)
    requires Queued(g, start, visited, dist, p) && y !in visited
    ensures Queued(g, start, visited + {y}, dist[y := d], p)
  {
  }

  /** A station first reached at the level after the current one is
      recorded at its true distance. */
  lemma OptimalGrow(g: seq<set<nat>>, stations: seq<Station>, start: nat, dest: Shape,
                    queue: seq<seq<nat>>, visited: set<nat>, expanded: set<nat>,
                    active: set<nat>, dist: map<nat, nat>, level: nat, y: nat)
    requires |g| == |stations|
    requires Searching(g, stations, start, dest, queue, visited, expanded, active, dist, level)
    requires y !in visited
    ensures Optimal(g, start, dist[y := level + 1])
  {
    var dist' := dist[y := level + 1];
    forall v, w | v in dist' && WalkTo(g, start, v, w)
      ensures dist'[v] <= |w|
    {
      if v == y {
        Frontier(g, start, visited, expanded, dist, level, w);
      }
    }
  }

  /** Appending the extension of `path` by an unvisited neighbour `y` keeps
      the queue made of recorded paths, in order of length. */
  lemma QueueVisit(g: seq<set<nat>>, stations: seq<Station>, start: nat,
                   queue: seq<seq<nat>>, visited: set<nat>, dist: map<nat, nat>, level: nat,
                   path: seq<nat>, y: nat)
    requires |g| == |stations|
    requires Queued(g, start, visited, dist, path) && |path| == level
    requires forall i :: 0 <= i < |queue| ==> Queued(g, start, visited, dist, queue[i])
    requires forall i, j :: 0 <= i < j < |queue| ==> |queue[i]| <= |queue[j]|
    requires forall i :: 0 <= i < |queue| ==> level <= |queue[i]| <= level + 1
    requires y < |stations| && y in g[path[|path| - 1]] && y !in visited
    ensures forall i :: 0 <= i < |queue + [path + [y]]| ==>
              Queued(g, start, visited + {y}, dist[y := level + 1], (queue + [path + [y]])[i])
    ensures forall i, j :: 0 <= i < j < |queue + [path + [y]]| ==>
              |(queue + [path + [y]])[i]| <= |(queue + [path + [y]])[j]|
    ensures forall i :: 0 <= i < |queue + [path + [y]]| ==>
              level <= |(queue + [path + [y]])[i]| <= level + 1
  {
    var p := path + [y];
    var visited', dist', queue' := visited + {y}, dist[y := level + 1], queue + [p];
    assert Queued(g, start, visited', dist', p) by {
      assert forall i :: 0 <= i < |path| ==> p[i] == path[i];
    }
    forall i | 0 <= i < |queue|
      ensures Queued(g, start, visited', dist', queue'[i])
    {
      assert queue'[i] == queue[i];
      QueuedGrow(g, start, visited, dist, queue[i], y, level + 1);
    }
    assert queue'[|queue|] == p;
  }

  /** Recording an unvisited neighbour `y` of the active station, at one
      more than the current level, keeps the search consistent. */
  lemma SearchVisit(g: seq<set<nat>>, stations: seq<Station>, start: nat, dest: Shape,
                    queue: seq<seq<nat>>, visited: set<nat>, expanded: set<nat>,
                    dist: map<nat, nat>, level: nat, path: seq<nat>, y: nat)
    requires |g| == |stations|
    requires Queued(g, start, visited, dist, path) && |path| == level
    requires Searching(g, stations, start, dest, queue, visited, expanded,
                       {path[|path| - 1]}, dist, level)
    requires y < |stations| && y in g[path[|path| - 1]]
    requires y !in visited && stations[y].shape != dest
    ensures Queued(g, start, visited + {y}, dist[y := level + 1], path)
    ensures Searching(g, stations, start, dest, queue + [path + [y]], visited + {y}, expanded,
                      {path[|path| - 1]}, dist[y := level + 1], level)
  {
    var p := path + [y];
    var visited', dist', queue' := visited + {y}, dist[y := level + 1], queue + [p];
    QueuedGrow(g, start, visited, dist, path, y, level + 1);
    QueueVisit(g, stations, start, queue, visited, dist, level, path, y);
    LastsSnoc(queue, p);
    OptimalGrow(g, stations, start, dest, queue, visited, expanded, {path[|path| - 1]}, dist, level, y);
    SearchingIntro(g, stations, start, dest, queue', visited', expanded, {path[|path| - 1]}, dist', level);
  }

  /** An unvisited neighbour of the active station that has the sought
      shape ends a shortest walk to that shape. */
  lemma SearchFound(g: seq<set<nat>>, stations: seq<Station>, start: nat, dest: Shape,
                    queue: seq<seq<nat>>, visited: set<nat>, expanded: set<nat>,
                    dist: map<nat, nat>, level: nat, path: seq<nat>, y: nat)
    requires |g| == |stations|
    requires Queued(g, start, visited, dist, path) && |path| == level
    requires Searching(g, stations, start, dest, queue, visited, expanded,
                       {path[|path| - 1]}, dist, level)
    requires y < |stations| && y in g[path[|path| - 1]]
    requires y !in visited && stations[y].shape == dest
    ensures Leads(g, stations, start, dest, path + [y]) && NoDup(path + [y])
    ensures forall w :: Leads(g, stations, start, dest, w) ==> |path + [y]| <= |w|
  {
    var p := path + [y];
    assert forall i :: 0 <= i < |path| ==> p[i] == path[i];
    assert Leads(g, stations, start, dest, p);
    forall w | Leads(g, stations, start, dest, w)
      ensures |p| <= |w|
    {
      SearchFrontier(g, stations, start, dest, queue, visited, expanded,
                     {path[|path| - 1]}, dist, level, w);
    }
  }

  /** Once every neighbour of the active station is visited, it joins the
      expanded stations. */
  lemma SearchExpand(g: seq<set<nat>>, stations: seq<Station>, start: nat, dest: Shape,
                     queue: seq<seq<nat>>, visited: set<nat>, expanded: set<nat>,
                     dist: map<nat, nat>, level: nat, u: nat)
    requires |g| == |stations|
    requires Searching(g, stations, start, dest, queue, visited, expanded, {u}, dist, level)
    requires u < |stations| && g[u] <= visited
    ensures Searching(g, stations, start, dest, queue, visited, expanded + {u}, {}, dist, level)
  {
  }

  /** Any walk to a station outside the visited set is longer than the
      current level. */
  lemma SearchFrontier(g: seq<set<nat>>, stations: seq<Station>, start: nat, dest: Shape,
                       queue: seq<seq<nat>>, visited: set<nat>, expanded: set<nat>,
                       active: set<nat>, dist: map<nat, nat>, level: nat, w: seq<nat>)
    requires |g| == |stations|
    requires Searching(g, stations, start, dest, queue, visited, expanded, active, dist, level)
    requires |w| > 0 && WalkTo(g, start, w[|w| - 1], w) && w[|w| - 1] !in visited
    ensures |w| >= level + 1
  {
    Frontier(g, start, visited, expanded, dist, level, w);
  }

  /** With the queue empty and nothing active, no walk reaches `dest`. */
  lemma SearchExhausted(g: seq<set<nat>>, stations: seq<Station>, start: nat, dest: Shape,
                        visited: set<nat>, expanded: set<nat>, dist: map<nat, nat>, level: nat)
    requires |g| == |stations|
    requires Searching(g, stations, start, dest, [], visited, expanded, {}, dist, level)
    ensures forall w :: !Leads(g, stations, start, dest, w)
  {
    assert Lasts([]) == {};
    forall w | Leads(g, stations, start, dest, w)
      ensures false
    {
      StaysVisited(g, start, visited, w);
    }
  }

  // ---------------------------------------------------------------------
  // Search

  /** The neighbours of `u`, gathered line by line as microMetro.py does:
      the stations before and after `u` on each of its lines, skipping a
      line that does not hold `u`. */
  method NeighborsOf(stations: seq<Station>, lines: seq<Line>, u: nat) returns (neighbors: set<nat>)
    requires WellFormed(stations, lines) && u < |stations|
    ensures neighbors == Neighbors(stations, lines, u)
  {
    neighbors := {};
    var ls := stations[u].lines;
    for k := 0 to |ls|
      invariant neighbors == NeighborsVia(ls[..k], lines, u)
    {
      var route := lines[ls[k]].stations;
      if u in route {
        var idx := IndexOf(route, u);
        if idx > 0 {
          neighbors := neighbors + {route[idx - 1]};
        }
        if idx < |route| - 1 {
          neighbors := neighbors + {route[idx + 1]};
        }
      }
      assert ls[..k + 1][..k] == ls[..k];
    }
    assert ls[..|ls|] == ls;
  }

  /** One expansion of the search: examine the neighbours of the last
      station of `path`, in any order, queueing an extension of `path` to
      each unvisited one, and stop at the first whose shape is `dest`. */
  method Explore(stations: seq<Station>, lines: seq<Line>, ghost g: seq<set<nat>>, start: nat,
                 dest: Shape, path: seq<nat>, queue: seq<seq<nat>>, visited: set<nat>,
                 ghost expanded: set<nat>, ghost dist: map<nat, nat>, ghost level: nat)
    returns (found: Option<seq<nat>>, queue': seq<seq<nat>>, visited': set<nat>,
             ghost dist': map<nat, nat>)
    requires WellFormed(stations, lines) && |g| == |stations|
    requires Queued(g, start, visited, dist, path) && |path| == level
    requires g[path[|path| - 1]] == Neighbors(stations, lines, path[|path| - 1])
    requires Searching(g, stations, start, dest, queue, visited, expanded,
                       {path[|path| - 1]}, dist, level)
    ensures found.Some? ==> Leads(g, stations, start, dest, found.value) && NoDup(found.value)
    ensures found.Some? ==> forall w :: Leads(g, stations, start, dest, w) ==> |found.value| <= |w|
    ensures found.None? ==> Searching(g, stations, start, dest, queue', visited',
                                      expanded + {path[|path| - 1]}, {}, dist', level)
    ensures found.None? ==> visited <= visited' && (visited' == visited ==> queue' == queue)
  {
    var currentHeading := path[|path| - 1];
    queue', visited', dist' := queue, visited, dist;
    var neighbors := NeighborsOf(stations, lines, currentHeading);
    NeighborsInRange(stations, lines, currentHeading);
    var rest := neighbors;
    while rest != {}
      invariant rest <= neighbors
      invariant forall v :: v in neighbors - rest ==> v in visited'
      invariant visited <= visited' && (visited' == visited ==> queue' == queue)
      invariant Queued(g, start, visited', dist', path)
      invariant Searching(g, stations, start, dest, queue', visited', expanded,
                          {currentHeading}, dist', level)
      decreases rest
    {
      var neighbor :| neighbor in rest;
      rest := rest - {neighbor};
      if neighbor !in visited' {
        var newPath := path + [neighbor];
        if stations[neighbor].shape == dest {
          SearchFound(g, stations, start, dest, queue', visited', expanded, dist', level,
                      path, neighbor);
          return Some(newPath), queue', visited', dist';
        }
        SearchVisit(g, stations, start, dest, queue', visited', expanded, dist', level,
                    path, neighbor);
        visited', dist', queue' := visited' + {neighbor}, dist'[neighbor := level + 1], queue' + [path + [neighbor]];
      }
    }
    SearchExpand(g, stations, start, dest, queue', visited', expanded, dist', level,
                 currentHeading);
    found := None;
  }

  /** Breadth-first search from `start` for any station of shape `dest`.
      The order in which the neighbours of a station are examined is left
      open, as iteration over a Python `set` in microMetro.py is; whichever order is
      taken, the result is a shortest walk to such a station, without
      repeated stations, or `None` exactly when no such station is
      reachable. */
  method FindPathBFS(stations: seq<Station>, lines: seq<Line>, start: nat, dest: Shape)
    returns (path: Option<seq<nat>>)
    requires WellFormed(stations, lines) && start < |stations|
    ensures stations[start].shape == dest ==> path == Some([start])
    ensures path.Some? ==> Reaches(stations, lines, start, dest, path.value) && NoDup(path.value)
    ensures path.Some? ==> forall w :: Reaches(stations, lines, start, dest, w) ==> |path.value| <= |w|
    ensures path.None? <==> forall w :: !Reaches(stations, lines, start, dest, w)
  {
    var queue: seq<seq<nat>> := [[start]];
    var visited: set<nat> := {start};
    if stations[start].shape == dest {
      assert Reaches(stations, lines, start, dest, [start]);
      return Some([start]);
    }
    ghost var g := Adjacency(stations, lines);
    ghost var expanded: set<nat> := {};
    ghost var dist: map<nat, nat> := map[start := 1];
    ghost var level: nat := 1;
    SearchStart(g, stations, start, dest);
    while queue != []
      invariant Searching(g, stations, start, dest, queue, visited, expanded, {}, dist, level)
      invariant |visited| <= |stations|
      decreases |stations| - |visited|, |queue|
    {
      SearchPop(g, stations, start, dest, queue, visited, expanded, dist, level);
      var head := queue[0];
      AdjacencyAt(stations, lines, |stations|, head[|head| - 1]);
      ghost var visited0, queue0 := visited, queue[1..];
      var found;
      found, queue, visited, dist := Explore(stations, lines, g, start, dest, head, queue[1..], visited,
                                             expanded, dist, |head|);
      if found.Some? {
        assert Reaches(stations, lines, start, dest, found.value);
        return found;
      }
      expanded, level := expanded + {head[|head| - 1]}, |head|;
      BoundedSetSize(visited, |stations|);
      if visited != visited0 {
        StrictSubsetSize(visited0, visited);
      }
    }
    SearchExhausted(g, stations, start, dest, visited, expanded, dist, level);
    return None;
  }

  // ---------------------------------------------------------------------
  // Transfer point

  /** The lines that stations `a` and `b` both belong to. */
  function SharedLines(stations: seq<Station>, a: nat, b: nat): set<nat>
    requires a < |stations| && b < |stations|
  {
    (set l | l in stations[a].lines) * (set l | l in stations[b].lines)
  }

  /** The lines shared by every leg of `path[..k + 1]`. */
  function CommonLines(stations: seq<Station>, path: seq<nat>, k: nat): set<nat>
    requires IdsBelow(path, |stations|) && 1 <= k < |path|
  {
    if k == 1 then SharedLines(stations, path[0], path[1])
    else CommonLines(stations, path, k - 1) * SharedLines(stations, path[k - 1], path[k])
  }

  /** Line `l` serves every station of `path[..k + 1]`. */
  ghost predicate ServesPrefix(stations: seq<Station>, path: seq<nat>, k: nat, l: nat)
    requires IdsBelow(path, |stations|) && k < |path|
  {
    forall j :: 0 <= j <= k ==> l in stations[path[j]].lines
  }

  /** The running intersection holds exactly the lines that serve the whole
      prefix of the path walked so far. */
  lemma {:induction false} CommonLinesServe(stations: seq<Station>, path: seq<nat>, k: nat, l: nat)
    requires IdsBelow(path, |stations|) && 1 <= k < |path|
    ensures l in CommonLines(stations, path, k) <==> ServesPrefix(stations, path, k, l)
  {
    if k > 1 {
      CommonLinesServe(stations, path, k - 1, l);
    }
  }

  /** The first station `path[i]`, from `i` on, after which no single line
      serves the path any further. */
  function TransferFrom(stations: seq<Station>, path: seq<nat>, i: nat): Option<nat>
    requires IdsBelow(path, |stations|) && 1 <= i < |path|
    decreases |path| - i
  {
    if i == |path| - 1 then None
    else if CommonLines(stations, path, i + 1) == {} then Some(path[i])
    else TransferFrom(stations, path, i + 1)
  }

  /** The transfer point of a path: none for a path of fewer than three
      stations. */
  function TransferOnPath(stations: seq<Station>, path: seq<nat>): Option<nat>
    requires IdsBelow(path, |stations|)
  {
    if |path| < 3 then None else TransferFrom(stations, path, 1)
  }

  lemma {:induction false} CommonLinesShrink(stations: seq<Station>, path: seq<nat>, i: nat, k: nat)
    requires IdsBelow(path, |stations|) && 1 <= i <= k < |path|
    ensures CommonLines(stations, path, k) <= CommonLines(stations, path, i)
    decreases k - i
  {
    if i < k {
      CommonLinesShrink(stations, path, i, k - 1);
    }
  }

  /** `path[j]` is the first station from `path[i]` on past which no single
      line serves the path walked so far. */
  ghost predicate FirstBreak(stations: seq<Station>, path: seq<nat>, i: nat, j: nat)
    requires IdsBelow(path, |stations|)
  {
    && 1 <= i <= j < |path| - 1
    && CommonLines(stations, path, j + 1) == {}
    && forall m :: i < m <= j ==> CommonLines(stations, path, m) != {}
  }

  lemma {:induction false} TransferFromSpec(stations: seq<Station>, path: seq<nat>, i: nat)
    requires IdsBelow(path, |stations|) && 1 <= i < |path|
    ensures TransferFrom(stations, path, i).None? <==>
              i == |path| - 1 || CommonLines(stations, path, |path| - 1) != {}
    ensures TransferFrom(stations, path, i).Some? ==>
              exists j: nat :: FirstBreak(stations, path, i, j) && TransferFrom(stations, path, i).value == path[j]
    decreases |path| - i
  {
    if i < |path| - 1 {
      CommonLinesShrink(stations, path, i + 1, |path| - 1);
      if CommonLines(stations, path, i + 1) != {} {
        TransferFromSpec(stations, path, i + 1);
        if TransferFrom(stations, path, i + 1).Some? {
          var j: nat :| FirstBreak(stations, path, i + 1, j) && TransferFrom(stations, path, i + 1).value == path[j];
          assert FirstBreak(stations, path, i, j);
        }
      } else {
        assert FirstBreak(stations, path, i, i);
      }
    }
  }

  /** `path[i]` is an interior station such that no line serves all of
      `path[..i + 2]`, while one serves `path[..i + 1]` unless `i` is 1
      (see `CommonLinesServe`). */
  ghost predicate TransferPoint(stations: seq<Station>, path: seq<nat>, i: nat)
    requires IdsBelow(path, |stations|)
  {
    && 0 < i < |path| - 1
    && CommonLines(stations, path, i + 1) == {}
    && (i == 1 || CommonLines(stations, path, i) != {})
  }

  /** A path needs no transfer exactly when it has fewer than three stations
      or some line serves all of it; otherwise the transfer point is the
      station where the lines serving the path so far run out. */
  lemma TransferOnPathSpec(stations: seq<Station>, path: seq<nat>)
    requires IdsBelow(path, |stations|)
    ensures TransferOnPath(stations, path).None? <==>
              |path| < 3 || CommonLines(stations, path, |path| - 1) != {}
    ensures TransferOnPath(stations, path).Some? ==>
              exists i: nat :: TransferPoint(stations, path, i) && TransferOnPath(stations, path).value == path[i]
  {
    if |path| >= 3 {
      assert TransferOnPath(stations, path) == TransferFrom(stations, path, 1);
      TransferFromSpec(stations, path, 1);
      if TransferFrom(stations, path, 1).Some? {
        var j: nat :| FirstBreak(stations, path, 1, j) && TransferFrom(stations, path, 1).value == path[j];
        assert j == 1 || CommonLines(stations, path, j) != {};
        assert TransferPoint(stations, path, j);
      }
    }
  }

  /** No station before the end of a shortest walk to a shape has that
      shape. */
  lemma ShortestInterior(stations: seq<Station>, lines: seq<Line>, start: nat, dest: Shape, p: seq<nat>)
    requires WellFormed(stations, lines) && Reaches(stations, lines, start, dest, p)
    requires forall w :: Reaches(stations, lines, start, dest, w) ==> |p| <= |w|
    ensures forall i :: 0 <= i < |p| - 1 ==> stations[p[i]].shape != dest
  {
    forall i | 0 <= i < |p| - 1 ensures stations[p[i]].shape != dest {
      WalkPrefix(Adjacency(stations, lines), p, i + 1);
      assert Reaches(stations, lines, start, stations[p[i]].shape, p[..i + 1]);
    }
  }

  /** `findTransfer` of microMetro.py: search a path to `dest`, then walk it
      narrowing the set of lines that serve every leg so far, and report the
      station where that set would become empty.  `path` is the search
      result the answer was drawn from. */
  method FindTransfer(stations: seq<Station>, lines: seq<Line>, start: nat, dest: Shape)
    returns (transfer: Option<nat>, ghost path: Option<seq<nat>>)
    requires WellFormed(stations, lines) && start < |stations|
    ensures path.Some? ==> Reaches(stations, lines, start, dest, path.value) && NoDup(path.value)
    ensures path.Some? ==> forall w :: Reaches(stations, lines, start, dest, w) ==> |path.value| <= |w|
    ensures path.None? <==> forall w :: !Reaches(stations, lines, start, dest, w)
    ensures transfer == (if path.None? then None else TransferOnPath(stations, path.value))
    ensures transfer.Some? ==>
              && transfer.value < |stations|
              && transfer.value != start
              && stations[transfer.value].shape != dest
    ensures transfer.Some? ==> exists i :: 0 < i < |path.value| - 1 && path.value[i] == transfer.value
  {
    var found := FindPathBFS(stations, lines, start, dest);
    path := found;
    if found.None? || |found.value| < 3 {
      return None, path;
    }
    var p := found.value;
    ShortestInterior(stations, lines, start, dest, p);
    TransferOnPathSpec(stations, p);
    var currentLines := SharedLines(stations, p[0], p[1]);
    for i := 1 to |p| - 1
      invariant currentLines == CommonLines(stations, p, i)
      invariant TransferOnPath(stations, p) == TransferFrom(stations, p, i)
    {
      var currentHeading := p[i];
      var nextHeading := p[i + 1];
      var nextLines := SharedLines(stations, currentHeading, nextHeading);
      if currentLines * nextLines == {} {
        return Some(currentHeading), path;
      }
      currentLines := currentLines * nextLines;
    }
    return None, path;
  }
}
