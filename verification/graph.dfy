/** The network graph: the invariants that tie stations, lines and trains
    together, the adjacency relation the pathfinder walks, line endpoints and
    the choice of which line a click extends. */
module Graph {
  import opened Model

  ghost predicate NoDup(s: seq<nat>) {
    forall i, j :: 0 <= i < j < |s| ==> s[i] != s[j]
  }

  /** Every index stored in the arenas refers to an existing station or line
      (object references in microMetro.py are never dangling). */
  ghost predicate WellFormed(stations: seq<Station>, lines: seq<Line>) {
    && (forall s :: 0 <= s < |stations| ==> IdsBelow(stations[s].lines, |lines|))
    && (forall l :: 0 <= l < |lines| ==> IdsBelow(lines[l].stations, |stations|))
  }

  /** Every index in `ids` is below `n`. */
  ghost predicate IdsBelow(ids: seq<nat>, n: nat) {
    forall k :: 0 <= k < |ids| ==> ids[k] < n
  }

  /** A train on a route of `n` stations: both indices on the route, heading
      one step from the station it left. */
  ghost predicate TrainOk(t: Train, n: int) {
    && 0 <= t.currentIndex < n
    && 0 <= t.targetIndex < n
    && (t.direction == 1 || t.direction == -1)
    && t.targetIndex == t.currentIndex + t.direction
  }

  /** A rider's transfer station, when set, lies on the rider's line. */
  ghost predicate RiderOk(p: Passenger, route: seq<nat>) {
    p.transferStation.None? || p.transferStation.value in route
  }

  ghost predicate LineOk(line: Line) {
    && NoDup(line.stations)
    && |line.trains| <= 1
    && (|line.trains| == 1 ==> |line.stations| >= 2)
    && forall k :: 0 <= k < |line.trains| ==>
         && TrainOk(line.trains[k], |line.stations|)
         && |line.trains[k].passengers| <= Capacity
         && forall p :: p in line.trains[k].passengers ==> RiderOk(p, line.stations)
  }

  /** Waiting passengers never want the station they wait at and carry no
      transfer annotation (it is cleared when they alight). */
  ghost predicate WaitingOk(st: Station) {
    forall p :: p in st.passengers ==> p.destinationShape != st.shape && p.transferStation == None
  }

  /** The network invariant: no station twice on a line, at most one train
      per line and only on a line of two or more stations, trains within
      their routes and capacity, and the station-to-line back references
      agree with the routes. */
  ghost predicate Valid(stations: seq<Station>, lines: seq<Line>) {
    && WellFormed(stations, lines)
    && (forall l :: 0 <= l < |lines| ==> LineOk(lines[l]))
    && (forall s :: 0 <= s < |stations| ==> NoDup(stations[s].lines) && WaitingOk(stations[s]))
    && (forall l, s :: 0 <= l < |lines| && s in lines[l].stations ==> l in stations[s].lines)
    && (forall s, l :: 0 <= s < |stations| && l in stations[s].lines ==> s in lines[l].stations)
  }

  // ---------------------------------------------------------------------
  // Adjacency

  /** Position of the first occurrence of `s` (`list.index` in microMetro.py). */
  function IndexOf(route: seq<nat>, s: nat): (i: nat)
    requires s in route
    ensures i < |route| && route[i] == s
    ensures forall j :: 0 <= j < i ==> route[j] != s
  {
    if route[0] == s then 0 else 1 + IndexOf(route[1..], s)
  }

  /** Neighbours of `s` on one route: the stations just before and just
      after its first occurrence; none when `s` is not on the route. */
  function RouteNeighbors(route: seq<nat>, s: nat): set<nat> {
    if s !in route then {}
    else
      var i := IndexOf(route, s);
      (if i > 0 then {route[i - 1]} else {}) + (if i < |route| - 1 then {route[i + 1]} else {})
  }

  /** The union of `RouteNeighbors` over the lines `ls`. */
  function NeighborsVia(ls: seq<nat>, lines: seq<Line>, s: nat): set<nat>
    requires IdsBelow(ls, |lines|)
  {
    if ls == [] then {}
    else NeighborsVia(ls[..|ls| - 1], lines, s) + RouteNeighbors(lines[ls[|ls| - 1]].stations, s)
  }

  /** The stations one hop from `s` on some line of `s`. */
  function Neighbors(stations: seq<Station>, lines: seq<Line>, s: nat): set<nat>
    requires WellFormed(stations, lines) && s < |stations|
  {
    NeighborsVia(stations[s].lines, lines, s)
  }

  /** `a` and `b` are consecutive, in either order, somewhere on `route`. */
  ghost predicate Linked(route: seq<nat>, a: nat, b: nat) {
    exists i :: 0 <= i < |route| - 1 &&
      ((route[i] == a && route[i + 1] == b) || (route[i] == b && route[i + 1] == a))
  }

  lemma {:induction false} NeighborsViaAt(ls: seq<nat>, lines: seq<Line>, s: nat, v: nat)
    requires IdsBelow(ls, |lines|)
    ensures v in NeighborsVia(ls, lines, s) <==>
            exists k :: 0 <= k < |ls| && v in RouteNeighbors(lines[ls[k]].stations, s)
  {
    if ls != [] {
      var front := ls[..|ls| - 1];
      NeighborsViaAt(front, lines, s, v);
      if v in NeighborsVia(front, lines, s) {
        var k :| 0 <= k < |front| && v in RouteNeighbors(lines[front[k]].stations, s);
        assert ls[k] == front[k];
      }
      if exists k :: 0 <= k < |ls| && v in RouteNeighbors(lines[ls[k]].stations, s) {
        var k :| 0 <= k < |ls| && v in RouteNeighbors(lines[ls[k]].stations, s);
        if k < |ls| - 1 {
          assert front[k] == ls[k];
        }
      }
    }
  }

  /** On a route without repetitions, the route neighbours of `s` are
      exactly the stations linked to `s` on it. */
  lemma RouteNeighborsLinked(route: seq<nat>, s: nat, v: nat)
    requires NoDup(route)
    ensures v in RouteNeighbors(route, s) <==> Linked(route, s, v)
  {
    if Linked(route, s, v) {
      var i :| 0 <= i < |route| - 1 &&
        ((route[i] == s && route[i + 1] == v) || (route[i] == v && route[i + 1] == s));
      var k := IndexOf(route, s);
      if route[i] == s {
        assert k == i;
      } else {
        assert k == i + 1;
      }
    }
    if v in RouteNeighbors(route, s) {
      var k := IndexOf(route, s);
      if k > 0 && v == route[k - 1] {
        assert route[k - 1] == v && route[k] == s;
      } else {
        assert route[k] == s && route[k + 1] == v;
      }
    }
  }

  /** The edges the pathfinder follows are exactly "consecutive on some
      line": `v` is a neighbour of `u` if and only if some line has `u` and
      `v` next to each other. */
  lemma AdjacentOnSomeLine(stations: seq<Station>, lines: seq<Line>, u: nat, v: nat)
    requires Valid(stations, lines) && u < |stations|
    ensures v in Neighbors(stations, lines, u) <==>
            exists l :: 0 <= l < |lines| && Linked(lines[l].stations, u, v)
  {
    if v in Neighbors(stations, lines, u) {
      NeighborOnLine(stations, lines, u, v);
    }
    if exists l :: 0 <= l < |lines| && Linked(lines[l].stations, u, v) {
      var l :| 0 <= l < |lines| && Linked(lines[l].stations, u, v);
      LinkedNeighbor(stations, lines, u, v, l);
    }
  }

  lemma NeighborOnLine(stations: seq<Station>, lines: seq<Line>, u: nat, v: nat)
    requires Valid(stations, lines) && u < |stations| && v in Neighbors(stations, lines, u)
    ensures exists l :: 0 <= l < |lines| && Linked(lines[l].stations, u, v)
  {
    var ls := stations[u].lines;
    NeighborsViaAt(ls, lines, u, v);
    var k :| 0 <= k < |ls| && v in RouteNeighbors(lines[ls[k]].stations, u);
    assert LineOk(lines[ls[k]]);
    RouteNeighborsLinked(lines[ls[k]].stations, u, v);
  }

  lemma LinkedNeighbor(stations: seq<Station>, lines: seq<Line>, u: nat, v: nat, l: nat)
    requires Valid(stations, lines) && u < |stations| && l < |lines| && Linked(lines[l].stations, u, v)
    ensures v in Neighbors(stations, lines, u)
  {
    var ls := stations[u].lines;
    var route := lines[l].stations;
    var i :| 0 <= i < |route| - 1 &&
      ((route[i] == u && route[i + 1] == v) || (route[i] == v && route[i + 1] == u));
    assert u in route;
    assert l in ls;
    var k :| 0 <= k < |ls| && ls[k] == l;
    assert LineOk(lines[l]);
    RouteNeighborsLinked(route, u, v);
    NeighborsViaAt(ls, lines, u, v);
  }

  /** Every neighbour is an existing station. */
  lemma NeighborsInRange(stations: seq<Station>, lines: seq<Line>, u: nat)
    requires WellFormed(stations, lines) && u < |stations|
    ensures forall v :: v in Neighbors(stations, lines, u) ==> v < |stations|
  {
    var ls := stations[u].lines;
    forall v | v in Neighbors(stations, lines, u)
      ensures v < |stations|
    {
      NeighborsViaAt(ls, lines, u, v);
      var k :| 0 <= k < |ls| && v in RouteNeighbors(lines[ls[k]].stations, u);
      assert v in lines[ls[k]].stations;
    }
  }

  // ---------------------------------------------------------------------
  // Endpoints and extension

  /** The two endpoints of a non-empty route (the same station twice when
      the route has one station). */
  function Endpoints(route: seq<nat>): (r: seq<nat>)
    requires |route| > 0
    ensures |r| == 2 && forall e :: e in r ==> e in route
    ensures forall e :: e in r <==> e == route[0] || e == route[|route| - 1]
    ensures |route| == 1 ==> r[0] == r[1]
    ensures NoDup(route) ==> forall i :: 0 < i < |route| - 1 ==> route[i] !in r
  {
    [route[0], route[|route| - 1]]
  }

  /** The route after extending it with `newStation` at `endStation`:
      unchanged when `newStation` is already on it or `endStation` is not
      an endpoint; otherwise prepended at the head (tried first) or appended
      at the tail. */
  function ExtendRoute(route: seq<nat>, newStation: nat, endStation: nat): (r: seq<nat>)
    requires |route| > 0
    ensures |r| == |route| + 1 <==> newStation !in route && endStation in Endpoints(route)
    ensures |r| == |route| ==> r == route
    ensures |r| == |route| + 1 ==>
              if route[0] == endStation then r[0] == newStation && r[1..] == route
              else r[..|route|] == route && r[|route|] == newStation
    ensures NoDup(route) ==> NoDup(r)
    ensures forall s :: s in r <==> s in route || (s == newStation && |r| == |route| + 1)
  {
    if newStation in route || endStation !in Endpoints(route) then route
    else if route[0] == endStation then [newStation] + route
    // `endStation` is an endpoint and not the head, so it is the tail: the
    // `elif` of microMetro.py always holds here.
    else route + [newStation]
  }

  /** Line `l` can be extended from `from` to `to`: `from` is one of its
      endpoints and `to` is not yet on it. */
  ghost predicate Extendable(lines: seq<Line>, l: nat, from: nat, to: nat)
    requires l < |lines|
  {
    |lines[l].stations| > 0 && from in Endpoints(lines[l].stations) && to !in lines[l].stations
  }

  /** The first line of `ls`, in order, that can be extended from `from` to
      `to`. */
  function FirstExtendable(ls: seq<nat>, lines: seq<Line>, from: nat, to: nat): (r: Option<nat>)
    requires IdsBelow(ls, |lines|)
    ensures r.None? <==> forall k :: 0 <= k < |ls| ==> !Extendable(lines, ls[k], from, to)
    ensures r.Some? ==> exists k :: (0 <= k < |ls| && ls[k] == r.value &&
              Extendable(lines, ls[k], from, to) &&
              forall j :: 0 <= j < k ==> !Extendable(lines, ls[j], from, to))
  {
    if ls == [] then None
    else
      var route := lines[ls[0]].stations;
      if |route| > 0 && from in Endpoints(route) && to !in route then Some(ls[0])
      else
        var r := FirstExtendable(ls[1..], lines, from, to);
        assert forall k :: 0 < k < |ls| ==> ls[k] == ls[1..][k - 1];
        r
  }

  /** Which line a click from `station1` to `station2` extends: first the
      lines of `station1` where it is an endpoint and `station2` is not yet
      on the line, then symmetrically the lines of `station2`.  The result is
      (line, endpoint to extend at, station to add). */
  function FindExtendableLine(stations: seq<Station>, lines: seq<Line>, station1: nat, station2: nat)
    : (r: Option<(nat, nat, nat)>)
    requires Valid(stations, lines) && station1 < |stations| && station2 < |stations|
    ensures r.Some? ==>
              var (l, endpoint, newStation) := r.value;
              && l < |lines| && |lines[l].stations| > 0
              && endpoint in Endpoints(lines[l].stations)
              && newStation !in lines[l].stations
              && ((endpoint, newStation) == (station1, station2) || (endpoint, newStation) == (station2, station1))
              && l in stations[endpoint].lines
    ensures (exists k :: 0 <= k < |stations[station1].lines| &&
               Extendable(lines, stations[station1].lines[k], station1, station2))
            ==> r.Some? && r.value.1 == station1
    ensures r.Some? && r.value.1 == station1 ==>
              Some(r.value.0) == FirstExtendable(stations[station1].lines, lines, station1, station2)
    ensures r.Some? && r.value.1 != station1 ==>
              && FirstExtendable(stations[station1].lines, lines, station1, station2).None?
              && Some(r.value.0) == FirstExtendable(stations[station2].lines, lines, station2, station1)
    ensures r.None? <==>
              && (forall k :: 0 <= k < |stations[station1].lines| ==>
                    !Extendable(lines, stations[station1].lines[k], station1, station2))
              && (forall k :: 0 <= k < |stations[station2].lines| ==>
                    !Extendable(lines, stations[station2].lines[k], station2, station1))
  {
    var first := FirstExtendable(stations[station1].lines, lines, station1, station2);
    if first.Some? then Some((first.value, station1, station2))
    else
      var second := FirstExtendable(stations[station2].lines, lines, station2, station1);
      if second.Some? then Some((second.value, station2, station1))
      else None
  }

  /** Extending the line that `FindExtendableLine` picks, at the endpoint it
      picks, always adds exactly the new station. */
  lemma ExtendableLineGrows(stations: seq<Station>, lines: seq<Line>, station1: nat, station2: nat)
    requires Valid(stations, lines) && station1 < |stations| && station2 < |stations|
    requires FindExtendableLine(stations, lines, station1, station2).Some?
    ensures var (l, endpoint, newStation) := FindExtendableLine(stations, lines, station1, station2).value;
            var route := lines[l].stations;
            |ExtendRoute(route, newStation, endpoint)| == |route| + 1 &&
            newStation in ExtendRoute(route, newStation, endpoint)
  {
  }
}
