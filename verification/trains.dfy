/** Trains: placement on a new line, the per-tick movement state machine
    (dwell, travel, arrival and reversal at the ends of the line) and the
    exchange of passengers at the station a train arrives at. */
module Trains {
  import opened Model
  import opened Graph
  import opened Pathfinder

  // ---------------------------------------------------------------------
  // Movement

  /** A train placed at `startIndex` of a route of `n` stations, heading
      forward.  The target is `startIndex + 1 % n`, which binds as
      `startIndex + (1 % n)` in microMetro.py just as here. */
  function NewTrain(startIndex: nat, n: nat): (t: Train)
    requires startIndex < n
    ensures t.currentIndex == startIndex && t.direction == 1 && t.waitTimer == 0 && t.passengers == []
    ensures startIndex + 1 < n ==> TrainOk(t, n)
    ensures n == 1 ==> t.targetIndex == startIndex
  {
    Train(startIndex, startIndex + 1 % n, 1, 0, [])
  }

  /** The train reaches its target on this tick: it is not dwelling, its
      line has two or more stations and the distance left is below one
      tick's travel. */
  predicate Arrives(t: Train, n: nat, distance: real) {
    t.waitTimer == 0 && n >= 2 && distance < Speed
  }

  /** One tick of a train on a route of `n` stations, `distance` away from
      its target: a dwelling train only counts its timer down; an arriving
      train makes its target the station it is at, turns round at either end
      of the line, heads for the next station and starts to dwell; otherwise
      the indices stay as they are (the train is travelling). */
  function Motion(t: Train, n: nat, distance: real): (r: Train)
    requires Arrives(t, n, distance) ==> 0 <= t.targetIndex < n
    ensures r.passengers == t.passengers
    ensures t.waitTimer > 0 ==> r == t.(waitTimer := t.waitTimer - 1)
    ensures t.waitTimer == 0 && !Arrives(t, n, distance) ==> r == t
    ensures Arrives(t, n, distance) ==>
              && r.currentIndex == t.targetIndex && r.waitTimer == DwellTicks
              && (t.targetIndex == n - 1 ==> r.direction == -1 && r.targetIndex == n - 2)
              && (t.targetIndex == 0 ==> r.direction == 1 && r.targetIndex == 1)
              && (0 < t.targetIndex < n - 1 ==>
                    r.direction == t.direction && r.targetIndex == t.targetIndex + t.direction)
    ensures TrainOk(t, n) ==> TrainOk(r, n)
  {
    if t.waitTimer > 0 then t.(waitTimer := t.waitTimer - 1)
    else if n < 2 then t
    else if distance < Speed then
      var direction := if t.targetIndex == n - 1 then -1 else if t.targetIndex == 0 then 1 else t.direction;
      t.(currentIndex := t.targetIndex, direction := direction,
         targetIndex := t.targetIndex + direction, waitTimer := DwellTicks)
    else t
  }

  /** The train after one tick per entry of `distances`, each entry being
      the distance to its target on that tick. */
  function Run(t: Train, n: nat, distances: seq<real>): (r: Train)
    requires TrainOk(t, n)
    ensures TrainOk(r, n) && r.passengers == t.passengers
    decreases |distances|
  {
    if distances == [] then t
    else Motion(Run(t, n, distances[..|distances| - 1]), n, distances[|distances| - 1])
  }

  /** A dwelling train stays where it is for as many ticks as its timer
      shows, whatever distances it is given: after an arrival it waits
      `DwellTicks` ticks before it can travel on. */
  lemma {:induction false} Dwell(t: Train, n: nat, distances: seq<real>)
    requires TrainOk(t, n) && |distances| <= t.waitTimer
    ensures Run(t, n, distances).waitTimer == t.waitTimer - |distances|
    ensures Run(t, n, distances).currentIndex == t.currentIndex
    ensures Run(t, n, distances).targetIndex == t.targetIndex
    decreases |distances|
  {
    if distances != [] {
      Dwell(t, n, distances[..|distances| - 1]);
    }
  }

  // ---------------------------------------------------------------------
  // Passengers

  /** The two tests `handlePassengers` sorts its riders by. */
  datatype Test = HeadsFor(shape: Shape) | ChangesAt(station: nat)

  predicate Meets(p: Passenger, c: Test) {
    match c
    case HeadsFor(shape) => p.destinationShape == shape
    case ChangesAt(st) => p.transferStation == Some(st)
  }

  /** The passengers of `ps` whose outcome of test `c` is `outcome`, in
      their order. */
  function Select(ps: seq<Passenger>, c: Test, outcome: bool): (r: seq<Passenger>)
    ensures |r| <= |ps|
  {
    if ps == [] then []
    else
      Select(ps[..|ps| - 1], c, outcome) + (if Meets(ps[|ps| - 1], c) == outcome then [ps[|ps| - 1]] else [])
  }

  /** `Select` keeps exactly the passengers with the wanted outcome. */
  lemma {:induction false} SelectMembers(ps: seq<Passenger>, c: Test, outcome: bool)
    ensures forall p :: p in Select(ps, c, outcome) <==> p in ps && Meets(p, c) == outcome
    decreases |ps|
  {
    if ps != [] {
      SelectMembers(ps[..|ps| - 1], c, outcome);
      assert ps == ps[..|ps| - 1] + [ps[|ps| - 1]];
    }
  }

  /** The destinations of `ps`, counted with multiplicity. */
  function Dests(ps: seq<Passenger>): multiset<Shape> {
    if ps == [] then multiset{} else Dests(ps[..|ps| - 1]) + multiset{ps[|ps| - 1].destinationShape}
  }

  lemma {:induction false} DestsAppend(a: seq<Passenger>, b: seq<Passenger>)
    ensures Dests(a + b) == Dests(a) + Dests(b)
    decreases |b|
  {
    if b == [] {
      assert a + b == a;
    } else {
      calc {
        Dests(a + b);
        { assert (a + b)[..|a + b| - 1] == a + b[..|b| - 1]; }
        Dests(a + b[..|b| - 1]) + multiset{b[|b| - 1].destinationShape};
        { DestsAppend(a, b[..|b| - 1]); }
        Dests(a) + Dests(b[..|b| - 1]) + multiset{b[|b| - 1].destinationShape};
      }
    }
  }

  /** A shape is among the destinations of `ps` exactly when some
      passenger of `ps` is bound for it. */
  lemma {:induction false} DestsHas(ps: seq<Passenger>, shape: Shape)
    ensures shape in Dests(ps) <==> exists p :: p in ps && p.destinationShape == shape
    decreases |ps|
  {
    if ps != [] {
      var front := ps[..|ps| - 1];
      DestsHas(front, shape);
      assert forall p :: p in ps <==> p in front || p == ps[|ps| - 1];
    }
  }

  /** There are as many destinations as passengers. */
  lemma {:induction false} DestsSize(ps: seq<Passenger>)
    ensures |Dests(ps)| == |ps|
    decreases |ps|
  {
    if ps != [] {
      DestsSize(ps[..|ps| - 1]);
    }
  }

  /** Splitting a list by a test loses and invents no passenger. */
  lemma {:induction false} SelectPartition(ps: seq<Passenger>, c: Test)
    ensures Dests(Select(ps, c, true)) + Dests(Select(ps, c, false)) == Dests(ps)
    ensures |Select(ps, c, true)| + |Select(ps, c, false)| == |ps|
    decreases |ps|
  {
    if ps != [] {
      var front, last := ps[..|ps| - 1], ps[|ps| - 1];
      var yes, no := Select(front, c, true), Select(front, c, false);
      var d := multiset{last.destinationShape};
      SelectPartition(front, c);
      assert Dests(ps) == Dests(front) + d;
      assert Dests([last]) == d;
      Grow(Dests(yes), Dests(no), Dests(front), d);
      if Meets(last, c) {
        assert Select(ps, c, true) == yes + [last];
        assert Select(ps, c, false) == no;
        DestsAppend(yes, [last]);
      } else {
        assert Select(ps, c, true) == yes;
        assert Select(ps, c, false) == no + [last];
        DestsAppend(no, [last]);
      }
    }
  }

  lemma Grow(a: multiset<Shape>, b: multiset<Shape>, f: multiset<Shape>, d: multiset<Shape>)
    requires a + b == f
    ensures (a + d) + b == f + d && a + (b + d) == f + d
  {
    assert forall x :: (a + b)[x] == f[x];
    assert forall x :: ((a + d) + b)[x] == (a + b)[x] + d[x];
    assert forall x :: (a + (b + d))[x] == (a + b)[x] + d[x];
  }

  /** The riders whose destination is `shape`: they are delivered here. */
  function Delivered(riders: seq<Passenger>, shape: Shape): seq<Passenger> {
    Select(riders, HeadsFor(shape), true)
  }

  /** The riders not delivered at a station of shape `shape` who are due to
      change there, station `st`. */
  function Changing(riders: seq<Passenger>, shape: Shape, st: nat): seq<Passenger> {
    Select(Select(riders, HeadsFor(shape), false), ChangesAt(st), true)
  }

  /** The riders who stay aboard through the drop-off at station `st` of
      shape `shape`. */
  function Staying(riders: seq<Passenger>, shape: Shape, st: nat): seq<Passenger> {
    Select(Select(riders, HeadsFor(shape), false), ChangesAt(st), false)
  }

  /** `ps` with every transfer annotation cleared. */
  function Cleared(ps: seq<Passenger>): (r: seq<Passenger>)
    ensures |r| == |ps| && Dests(r) == Dests(ps)
    ensures forall k :: 0 <= k < |r| ==> r[k] == ps[k].(transferStation := None)
  {
    if ps == [] then [] else Cleared(ps[..|ps| - 1]) + [ps[|ps| - 1].(transferStation := None)]
  }

  /** Some station of `route` has shape `shape` (the
      `any(station.shape == ... for station in line.stations)` test of
      microMetro.py). */
  function Serves(stations: seq<Station>, route: seq<nat>, shape: Shape): (b: bool)
    requires IdsBelow(route, |stations|)
    ensures b <==> exists k :: 0 <= k < |route| && stations[route[k]].shape == shape
  {
    if route == [] then false
    else stations[route[|route| - 1]].shape == shape || Serves(stations, route[..|route| - 1], shape)
  }

  /** `w` is a shortest walk from `st` to a station of shape `shape`. */
  ghost predicate Shortest(stations: seq<Station>, lines: seq<Line>, st: nat, shape: Shape, w: seq<nat>)
    requires WellFormed(stations, lines)
  {
    && Reaches(stations, lines, st, shape, w) && NoDup(w) && IdsBelow(w, |stations|)
    && forall v :: Reaches(stations, lines, st, shape, v) ==> |w| <= |v|
  }

  /** The transfer station a search from `st` towards `shape` can report:
      the transfer point of some shortest walk. */
  ghost predicate TransferVia(stations: seq<Station>, lines: seq<Line>, st: nat, shape: Shape, x: nat)
    requires WellFormed(stations, lines)
  {
    exists w :: Shortest(stations, lines, st, shape, w) && TransferOnPath(stations, w) == Some(x)
  }

  /** A passenger who boarded at `st` onto the line with route `route`: its
      destination shape is on the route and it has no transfer, or it is not
      and it rides to a transfer station on the route that a shortest walk
      from `st` needs. */
  ghost predicate Routed(stations: seq<Station>, lines: seq<Line>, route: seq<nat>, st: nat, q: Passenger)
    requires WellFormed(stations, lines) && IdsBelow(route, |stations|)
  {
    if Serves(stations, route, q.destinationShape) then q.transferStation.None?
    else
      && q.transferStation.Some? && q.transferStation.value in route
      && q.transferStation.value != st
      && TransferVia(stations, lines, st, q.destinationShape, q.transferStation.value)
  }

  /** A passenger waiting at `st` for `shape` whom the line with route
      `route` does not take: the shape is not on the route, and either no
      walk leads to it or the search can report a shortest walk whose
      transfer point is missing or off the route. */
  ghost predicate Unroutable(stations: seq<Station>, lines: seq<Line>, route: seq<nat>, st: nat, shape: Shape)
    requires WellFormed(stations, lines) && IdsBelow(route, |stations|)
  {
    && !Serves(stations, route, shape)
    && ((forall w :: !Reaches(stations, lines, st, shape, w)) ||
        exists w :: Shortest(stations, lines, st, shape, w) &&
          (TransferOnPath(stations, w).None? || TransferOnPath(stations, w).value !in route))
  }

  /** The boarding decision for one waiting passenger `p` at station `st`:
      board directly when the line serves its destination shape, else board
      with a transfer station when the search finds one on this line. */
  method Route(stations: seq<Station>, lines: seq<Line>, route: seq<nat>, st: nat, p: Passenger)
    returns (board: bool, q: Passenger)
    requires WellFormed(stations, lines) && st < |stations| && IdsBelow(route, |stations|)
    ensures q.destinationShape == p.destinationShape
    ensures board && Serves(stations, route, p.destinationShape) ==> q == p
    ensures board && p.transferStation.None? ==> Routed(stations, lines, route, st, q)
    ensures !board ==> q == p && Unroutable(stations, lines, route, st, p.destinationShape)
  {
    if Serves(stations, route, p.destinationShape) {
      return true, p;
    }
    var transfer, path := FindTransfer(stations, lines, st, p.destinationShape);
    if transfer.Some? && transfer.value in route {
      assert Shortest(stations, lines, st, p.destinationShape, path.value);
      return true, p.(transferStation := transfer);
    }
    if path.Some? {
      assert Shortest(stations, lines, st, p.destinationShape, path.value);
    }
    return false, p;
  }

  /** The larger of two naturals. */
  function Max(a: nat, b: nat): nat {
    if a < b then b else a
  }

  lemma Rebalance(a: multiset<Shape>, l: multiset<Shape>, r: multiset<Shape>, w: multiset<Shape>,
                  d: multiset<Shape>)
    requires a + l == r + w
    ensures (a + d) + l == r + (w + d) && a + (l + d) == r + (w + d)
  {
    assert forall x :: (a + l)[x] == (r + w)[x];
    assert forall x :: ((a + d) + l)[x] == (a + l)[x] + d[x];
    assert forall x :: (a + (l + d))[x] == (a + l)[x] + d[x];
  }

  /** The boarding decisions, one per passenger of `seen`, in queue order:
      each passenger either boarded, as the next rider after those before
      it, onto a train that still had a free seat, routed onto this line; or
      was left behind, as the next passenger after those left before it,
      because the train was already full or the line does not take it. */
  ghost predicate Decided(stations: seq<Station>, lines: seq<Line>, route: seq<nat>, st: nat,
                          riders: seq<Passenger>, seen: seq<Passenger>, cur: seq<Passenger>, left: seq<Passenger>)
    requires WellFormed(stations, lines) && IdsBelow(route, |stations|)
    decreases |seen|
  {
    if seen == [] then cur == riders && left == []
    else
      var p := seen[|seen| - 1];
      var before := seen[..|seen| - 1];
      || (&& left != [] && left[|left| - 1] == p
          && (|cur| >= Capacity || Unroutable(stations, lines, route, st, p.destinationShape))
          && Decided(stations, lines, route, st, riders, before, cur, left[..|left| - 1]))
      || (&& cur != [] && |cur| - 1 < Capacity
          && cur[|cur| - 1].destinationShape == p.destinationShape
          && Routed(stations, lines, route, st, cur[|cur| - 1])
          && Decided(stations, lines, route, st, riders, before, cur[..|cur| - 1], left))
  }

  /** The boarding loop's state after the waiting passengers `seen`: the
      train holds its earlier `riders` followed by passengers routed onto
      this line, within capacity; each passenger left behind was refused
      because the train was full or because the line does not take it; no
      destination is lost or invented. */
  ghost predicate Boarding(stations: seq<Station>, lines: seq<Line>, route: seq<nat>, st: nat,
                           riders: seq<Passenger>, seen: seq<Passenger>, cur: seq<Passenger>, left: seq<Passenger>)
    requires WellFormed(stations, lines) && IdsBelow(route, |stations|)
  {
    && |riders| <= |cur| <= Max(|riders|, Capacity)
    && cur[..|riders|] == riders
    && (forall k :: |riders| <= k < |cur| ==> Routed(stations, lines, route, st, cur[k]))
    && (forall k :: 0 <= k < |left| ==>
          |cur| >= Capacity || Unroutable(stations, lines, route, st, left[k].destinationShape))
    && (forall k :: 0 <= k < |left| ==> left[k] in seen)
    && Dests(cur) + Dests(left) == Dests(riders) + Dests(seen)
    && Decided(stations, lines, route, st, riders, seen, cur, left)
  }

  /** One more waiting passenger, boarding or left behind, keeps the count
      of destinations. */
  lemma KeepsDests(riders: seq<Passenger>, seen: seq<Passenger>, p: Passenger,
                   cur: seq<Passenger>, left: seq<Passenger>, q: Passenger)
    requires q.destinationShape == p.destinationShape
    requires Dests(cur) + Dests(left) == Dests(riders) + Dests(seen)
    ensures Dests(cur + [q]) + Dests(left) == Dests(riders) + Dests(seen + [p])
    ensures Dests(cur) + Dests(left + [p]) == Dests(riders) + Dests(seen + [p])
  {
    var d := multiset{q.destinationShape};
    DestsAppend(seen, [p]);
    DestsAppend(cur, [q]);
    DestsAppend(left, [p]);
    assert Dests([q]) == d && Dests([p]) == d;
    Rebalance(Dests(cur), Dests(left), Dests(riders), Dests(seen), d);
  }

  /** A passenger routed onto the line takes a free seat. */
  lemma BoardOne(stations: seq<Station>, lines: seq<Line>, route: seq<nat>, st: nat,
                 riders: seq<Passenger>, seen: seq<Passenger>, cur: seq<Passenger>, left: seq<Passenger>,
                 p: Passenger, q: Passenger)
    requires WellFormed(stations, lines) && IdsBelow(route, |stations|)
    requires Boarding(stations, lines, route, st, riders, seen, cur, left)
    requires |cur| < Capacity && q.destinationShape == p.destinationShape
    requires Routed(stations, lines, route, st, q)
    ensures Boarding(stations, lines, route, st, riders, seen + [p], cur + [q], left)
  {
    KeepsDests(riders, seen, p, cur, left, q);
    assert (seen + [p])[..|seen|] == seen && (cur + [q])[..|cur|] == cur;
    assert (cur + [q])[..|riders|] == cur[..|riders|];
    forall k | |riders| <= k < |cur| + 1
      ensures Routed(stations, lines, route, st, (cur + [q])[k])
    {
      if k < |cur| {
        assert (cur + [q])[k] == cur[k];
      }
    }
  }

  /** A passenger the train cannot or will not take stays in the queue. */
  lemma LeaveOne(stations: seq<Station>, lines: seq<Line>, route: seq<nat>, st: nat,
                 riders: seq<Passenger>, seen: seq<Passenger>, cur: seq<Passenger>, left: seq<Passenger>,
                 p: Passenger)
    requires WellFormed(stations, lines) && IdsBelow(route, |stations|)
    requires Boarding(stations, lines, route, st, riders, seen, cur, left)
    requires |cur| >= Capacity || Unroutable(stations, lines, route, st, p.destinationShape)
    ensures Boarding(stations, lines, route, st, riders, seen + [p], cur, left + [p])
  {
    KeepsDests(riders, seen, p, cur, left, p);
    assert (seen + [p])[..|seen|] == seen && (left + [p])[..|left|] == left;
    forall k | 0 <= k < |left| + 1
      ensures |cur| >= Capacity || Unroutable(stations, lines, route, st, (left + [p])[k].destinationShape)
    {
      if k < |left| {
        assert (left + [p])[k] == left[k];
      }
    }
  }

  /** The boarding decision for the next waiting passenger `p`. */
  method Consider(stations: seq<Station>, lines: seq<Line>, route: seq<nat>, st: nat,
                  riders: seq<Passenger>, seen: seq<Passenger>, cur: seq<Passenger>, left: seq<Passenger>,
                  p: Passenger)
    returns (cur': seq<Passenger>, left': seq<Passenger>)
    requires WellFormed(stations, lines) && st < |stations| && IdsBelow(route, |stations|)
    requires p.transferStation.None?
    requires Boarding(stations, lines, route, st, riders, seen, cur, left)
    ensures Boarding(stations, lines, route, st, riders, seen + [p], cur', left')
  {
    var board := false;
    var q := p;
    if |cur| < Capacity {
      board, q := Route(stations, lines, route, st, p);
    }
    if board {
      BoardOne(stations, lines, route, st, riders, seen, cur, left, p, q);
      cur', left' := cur + [q], left;
    } else {
      LeaveOne(stations, lines, route, st, riders, seen, cur, left, p);
      cur', left' := cur, left + [p];
    }
  }

  /** Boarding at station `st`: the waiting passengers are considered in
      order; while the train has a free seat each one that `Route` accepts
      boards, the others stay in the queue in their order. */
  method Board(stations: seq<Station>, lines: seq<Line>, route: seq<nat>, st: nat,
               riders: seq<Passenger>, waiting: seq<Passenger>)
    returns (riders': seq<Passenger>, left: seq<Passenger>)
    requires WellFormed(stations, lines) && st < |stations| && IdsBelow(route, |stations|)
    requires forall p :: p in waiting ==> p.transferStation.None?
    ensures Boarding(stations, lines, route, st, riders, waiting, riders', left)
  {
    riders', left := riders, [];
    for i := 0 to |waiting|
      invariant Boarding(stations, lines, route, st, riders, waiting[..i], riders', left)
    {
      assert waiting[..i + 1] == waiting[..i] + [waiting[i]];
      riders', left := Consider(stations, lines, route, st, riders, waiting[..i], riders', left, waiting[i]);
    }
    assert waiting[..|waiting|] == waiting;
  }

  /** Drop-off: the riders bound for `shape` leave the train and are
      counted; the others stay aboard in their order. */
  method DropOff(riders: seq<Passenger>, shape: Shape) returns (kept: seq<Passenger>, delivered: nat)
    ensures kept == Select(riders, HeadsFor(shape), false)
    ensures delivered == |Select(riders, HeadsFor(shape), true)|
  {
    kept, delivered := [], 0;
    for i := 0 to |riders|
      invariant kept == Select(riders[..i], HeadsFor(shape), false)
      invariant delivered == |Select(riders[..i], HeadsFor(shape), true)|
    {
      assert riders[..i + 1][..i] == riders[..i];
      assert riders[..i + 1][i] == riders[i];
      if riders[i].destinationShape != shape {
        kept := kept + [riders[i]];
      } else {
        delivered := delivered + 1;
      }
    }
    assert riders[..|riders|] == riders;
  }

  /** The riders due to change at station `st` are separated, in order,
      from those who stay aboard. */
  method SplitTransfers(riders: seq<Passenger>, st: nat) returns (transfers: seq<Passenger>, remaining: seq<Passenger>)
    ensures transfers == Select(riders, ChangesAt(st), true)
    ensures remaining == Select(riders, ChangesAt(st), false)
  {
    transfers, remaining := [], [];
    for i := 0 to |riders|
      invariant transfers == Select(riders[..i], ChangesAt(st), true)
      invariant remaining == Select(riders[..i], ChangesAt(st), false)
    {
      assert riders[..i + 1][..i] == riders[..i];
      if riders[i].transferStation == Some(st) {
        transfers := transfers + [riders[i]];
      } else {
        remaining := remaining + [riders[i]];
      }
    }
    assert riders[..|riders|] == riders;
  }

  /** The transferring passengers join the end of the station's queue with
      their transfer annotation cleared. */
  method Alight(waiting: seq<Passenger>, transfers: seq<Passenger>) returns (waiting': seq<Passenger>)
    ensures waiting' == waiting + Cleared(transfers)
  {
    waiting' := waiting;
    for i := 0 to |transfers|
      invariant waiting' == waiting + Cleared(transfers[..i])
    {
      assert transfers[..i + 1][..i] == transfers[..i];
      waiting' := waiting' + [transfers[i].(transferStation := None)];
    }
    assert transfers[..|transfers|] == transfers;
  }

  /** The exchange of passengers when a train on the line with route
      `route` arrives at station `st`, carrying `riders`, with `waiting`
      queued there: riders bound for the station's shape are delivered,
      riders due to change here join the queue, and then the queue boards
      as `Board` describes.  Returns the train's new riders, the station's
      new queue and the number delivered. */
  method HandlePassengers(stations: seq<Station>, lines: seq<Line>, route: seq<nat>, st: nat,
                          riders: seq<Passenger>, waiting: seq<Passenger>)
    returns (riders': seq<Passenger>, waiting': seq<Passenger>, delivered: nat)
    requires WellFormed(stations, lines) && st < |stations| && IdsBelow(route, |stations|)
    requires forall p :: p in waiting ==> p.destinationShape != stations[st].shape && p.transferStation == None
    ensures delivered == |Delivered(riders, stations[st].shape)|
    ensures Boarding(stations, lines, route, st, Staying(riders, stations[st].shape, st),
                     waiting + Cleared(Changing(riders, stations[st].shape, st)), riders', waiting')
    ensures Dests(riders') + Dests(waiting') + Dests(Delivered(riders, stations[st].shape))
              == Dests(riders + waiting)
    ensures |riders'| + |waiting'| + delivered == |riders| + |waiting|
    ensures |riders| <= Capacity ==> |riders'| <= Capacity
    ensures forall p :: p in riders' ==> p.transferStation != Some(st)
    ensures forall p :: p in riders' ==> p.destinationShape != stations[st].shape
    ensures (forall p :: p in riders ==> RiderOk(p, route)) ==> forall p :: p in riders' ==> RiderOk(p, route)
    ensures forall p :: p in waiting' ==> p.destinationShape != stations[st].shape && p.transferStation == None
  {
    var shape := stations[st].shape;
    var kept, transfers, remaining;
    kept, delivered := DropOff(riders, shape);
    transfers, remaining := SplitTransfers(kept, st);
    var queue := Alight(waiting, transfers);
    riders', waiting' := Board(stations, lines, route, st, remaining, queue);
    ArrivalKeepsDests(riders, waiting, shape, st);
    BoardingKeepsDests(remaining, queue, riders', waiting',
                       Delivered(riders, shape), riders + waiting);
    SelectMembers(kept, ChangesAt(st), false);
    NoneChangeHere(stations, lines, route, st, remaining, queue, riders', waiting');
    QueueOk(waiting, riders, shape, st);
    SelectMembers(riders, HeadsFor(shape), false);
    NoneBoundFor(stations, lines, route, st, remaining, queue, riders', waiting', shape);
    DestsSize(riders');
    DestsSize(waiting');
    DestsSize(Delivered(riders, shape));
    DestsSize(riders + waiting);
    if forall p :: p in riders ==> RiderOk(p, route) {
      SelectMembers(riders, HeadsFor(shape), false);
      BoardedOnLine(stations, lines, route, st, remaining, queue, riders', waiting');
    }
  }

  /** Riders keep transfer stations on their line through the exchange. */
  lemma BoardedOnLine(stations: seq<Station>, lines: seq<Line>, route: seq<nat>, st: nat,
                      riders: seq<Passenger>, seen: seq<Passenger>, cur: seq<Passenger>, left: seq<Passenger>)
    requires WellFormed(stations, lines) && IdsBelow(route, |stations|)
    requires Boarding(stations, lines, route, st, riders, seen, cur, left)
    requires forall p :: p in riders ==> RiderOk(p, route)
    ensures forall p :: p in cur ==> RiderOk(p, route)
  {
    forall p | p in cur
      ensures RiderOk(p, route)
    {
      var k :| 0 <= k < |cur| && cur[k] == p;
      if k < |riders| {
        assert cur[..|riders|][k] == p;
      } else {
        assert Routed(stations, lines, route, st, cur[k]);
      }
    }
  }

  /** After the exchange no rider is still due to change at the station. */
  lemma NoneChangeHere(stations: seq<Station>, lines: seq<Line>, route: seq<nat>, st: nat,
                       riders: seq<Passenger>, seen: seq<Passenger>, cur: seq<Passenger>, left: seq<Passenger>)
    requires WellFormed(stations, lines) && IdsBelow(route, |stations|)
    requires Boarding(stations, lines, route, st, riders, seen, cur, left)
    requires forall p :: p in riders ==> p.transferStation != Some(st)
    ensures forall p :: p in cur ==> p.transferStation != Some(st)
  {
    forall p | p in cur
      ensures p.transferStation != Some(st)
    {
      var k :| 0 <= k < |cur| && cur[k] == p;
      if k < |riders| {
        assert cur[..|riders|][k] == p;
      } else {
        assert Routed(stations, lines, route, st, cur[k]);
      }
    }
  }

  /** Nobody bound for `shape` is aboard after boarding when nobody
      aboard before and nobody in the queue was. */
  lemma NoneBoundFor(stations: seq<Station>, lines: seq<Line>, route: seq<nat>, st: nat,
                     riders: seq<Passenger>, seen: seq<Passenger>, cur: seq<Passenger>, left: seq<Passenger>,
                     shape: Shape)
    requires WellFormed(stations, lines) && IdsBelow(route, |stations|)
    requires Boarding(stations, lines, route, st, riders, seen, cur, left)
    requires forall p :: p in riders ==> p.destinationShape != shape
    requires forall p :: p in seen ==> p.destinationShape != shape
    ensures forall p :: p in cur ==> p.destinationShape != shape
  {
    DestsHas(riders, shape);
    DestsHas(seen, shape);
    assert (Dests(cur) + Dests(left))[shape] == 0;
    DestsHas(cur, shape);
  }

  /** The new queue at the station holds passengers from the old queue
      and the cleared transfers; none wants this station's shape. */
  lemma QueueOk(waiting: seq<Passenger>, riders: seq<Passenger>, shape: Shape, st: nat)
    requires forall p :: p in waiting ==> p.destinationShape != shape && p.transferStation == None
    ensures forall p :: p in waiting + Cleared(Changing(riders, shape, st)) ==>
              p.destinationShape != shape && p.transferStation == None
  {
    var changing := Changing(riders, shape, st);
    forall p | p in waiting + Cleared(changing)
      ensures p.destinationShape != shape && p.transferStation == None
    {
      if p !in waiting {
        var k :| 0 <= k < |Cleared(changing)| && Cleared(changing)[k] == p;
        SelectMembers(riders, HeadsFor(shape), false);
        SelectMembers(Select(riders, HeadsFor(shape), false), ChangesAt(st), true);
        assert changing[k] in changing;
      }
    }
  }

  /** The boarding step's count of destinations, combined with what was
      delivered. */
  lemma BoardingKeepsDests(riders: seq<Passenger>, seen: seq<Passenger>, cur: seq<Passenger>,
                           left: seq<Passenger>, gone: seq<Passenger>, all: seq<Passenger>)
    requires Dests(cur) + Dests(left) == Dests(riders) + Dests(seen)
    requires Dests(riders) + Dests(seen) + Dests(gone) == Dests(all)
    ensures Dests(cur) + Dests(left) + Dests(gone) == Dests(all)
  {
  }

  /** Drop-off and alighting lose no passenger: the riders who stay, the
      ones who change and the ones delivered are all the riders. */
  lemma ArrivalKeepsDests(riders: seq<Passenger>, waiting: seq<Passenger>, shape: Shape, st: nat)
    ensures Dests(Staying(riders, shape, st)) + Dests(waiting + Cleared(Changing(riders, shape, st)))
              + Dests(Delivered(riders, shape)) == Dests(riders + waiting)
  {
    DestsAppend(riders, waiting);
    var onward := Select(riders, HeadsFor(shape), false);
    SelectPartition(riders, HeadsFor(shape));
    SelectPartition(onward, ChangesAt(st));
    DestsAppend(waiting, Cleared(Changing(riders, shape, st)));
  }
}
