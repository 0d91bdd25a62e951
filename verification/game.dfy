/** The game screen: configuration by difficulty and city, the per-tick
    rules (game-over latch, spawn-rate ramp, shared-track map, pause, train
    movement, passenger and station spawning, overcrowding) and the click
    rule that extends a line or opens a new one. */
module Simulation {
  import opened Model
  import opened Graph
  import opened Trains
  import opened Transit

  // ---------------------------------------------------------------------
  // Configuration

  datatype Difficulty = Easy | Medium | Hard

  datatype City = NewYork | Tokyo | HongKong

  /** The settings a difficulty fixes at the start of a game. */
  datatype Settings = Settings(
    passengerSpawnRate: nat,
    stationSpawnRate: nat,
    stationLimit: nat,
    spawnLimit: nat,
    stationCapacity: nat,
    shapes: seq<Shape>,
    colors: seq<Color>)

  /** Ticks between passenger spawns start at 140, 100 or 80 and ramp down
      to 30, 20 or 10; a station appears every 660, 600 or 540 ticks, up to
      20, 20 or 30 stations; a station holds 10, 8 or 8 passengers; Easy uses
      three shapes, and Hard only three line colours. */
  function SettingsFor(d: Difficulty): (c: Settings)
    ensures 0 < c.spawnLimit < c.passengerSpawnRate && c.stationSpawnRate > 0
    ensures |c.shapes| >= 3 && |c.colors| >= 3 && c.stationLimit >= 3
    ensures d == Easy <==> |c.shapes| == 3
  {
    match d
    case Easy =>
      Settings(140, 660, 20, 30, 10, [Circle, Square, Triangle], ["red", "blue", "green", "orange", "purple"])
    case Medium =>
      Settings(100, 600, 20, 20, 8, [Circle, Square, Triangle, Diamond, Pentagon],
               ["red", "blue", "green", "orange", "purple"])
    case Hard =>
      Settings(80, 540, 30, 10, 8, [Circle, Square, Triangle, Diamond, Pentagon], ["red", "blue", "green"])
  }

  /** The three stations a city map starts with: a circle, a square and a
      triangle, at fixed positions. */
  function Opening(city: City): (r: seq<Station>)
    ensures |r| == 3
    ensures r[0].shape == Circle && r[1].shape == Square && r[2].shape == Triangle
    ensures forall s :: 0 <= s < 3 ==> r[s].passengers == [] && r[s].lines == []
  {
    match city
    case NewYork =>
      [Station(650, 500, Circle, [], []), Station(900, 300, Square, [], []), Station(950, 700, Triangle, [], [])]
    case Tokyo =>
      [Station(600, 600, Circle, [], []), Station(800, 300, Square, [], []), Station(1100, 400, Triangle, [], [])]
    case HongKong =>
      [Station(600, 400, Circle, [], []), Station(1200, 500, Square, [], []), Station(900, 600, Triangle, [], [])]
  }

  // ---------------------------------------------------------------------
  // Spawning helpers

  /** The shapes of the stations whose shape is not `shape`, in station
      order, repeats included: the destinations a passenger starting at a
      station of shape `shape` may draw. */
  function OtherShapes(stations: seq<Station>, shape: Shape): (r: seq<Shape>)
    ensures forall x :: x in r <==> x != shape && exists s :: 0 <= s < |stations| && stations[s].shape == x
  {
    if stations == [] then []
    else
      var rest := OtherShapes(stations[..|stations| - 1], shape);
      var last := stations[|stations| - 1];
      assert forall s :: 0 <= s < |stations| - 1 ==> stations[..|stations| - 1][s] == stations[s];
      rest + if last.shape != shape then [last.shape] else []
  }

  /** Some station lies within four station radii of (x, y). */
  function Overlaps(stations: seq<Station>, x: int, y: int): (b: bool)
    ensures b <==> exists s :: 0 <= s < |stations| && Crowds(stations[s], x, y)
  {
    if stations == [] then false
    else
      assert forall s :: 0 <= s < |stations| - 1 ==> stations[..|stations| - 1][s] == stations[s];
      Overlaps(stations[..|stations| - 1], x, y) || Crowds(stations[|stations| - 1], x, y)
  }

  /** (x, y) is strictly closer to `st` than four station radii. */
  predicate Crowds(st: Station, x: int, y: int) {
    (st.x - x) * (st.x - x) + (st.y - y) * (st.y - y) < (StationRadius * 4) * (StationRadius * 4)
  }

  /** The stations after a passenger spawn: the passenger waits at station
      `spawnPick % |stations|`, bound for one of the shapes other stations
      have, with no transfer planned.  When every station has the start's
      shape, no passenger appears. */
  function WithPassenger(stations: seq<Station>, spawnPick: nat, destPick: nat): (r: seq<Station>)
    requires |stations| > 0
    ensures var start := spawnPick % |stations|;
            && |r| == |stations|
            && (forall s :: 0 <= s < |r| && s != start ==> r[s] == stations[s])
            && r[start].(passengers := stations[start].passengers) == stations[start]
            && |stations[start].passengers| <= |r[start].passengers| <= |stations[start].passengers| + 1
            && r[start].passengers[..|stations[start].passengers|] == stations[start].passengers
    ensures var start := spawnPick % |stations|;
            var queue := stations[start].passengers;
            (exists s :: 0 <= s < |stations| && stations[s].shape != stations[start].shape)
            <==> |r[start].passengers| == |queue| + 1
    ensures var start := spawnPick % |stations|;
            var queue := stations[start].passengers;
            |r[start].passengers| == |queue| + 1 ==>
              var p := r[start].passengers[|queue|];
              && p.transferStation.None? && p.destinationShape != stations[start].shape
              && exists s :: 0 <= s < |stations| && stations[s].shape == p.destinationShape
  {
    var start := spawnPick % |stations|;
    var others := OtherShapes(stations, stations[start].shape);
    if others == [] then
      assert forall s :: 0 <= s < |stations| ==> stations[s].shape in others || stations[s].shape == stations[start].shape;
      stations
    else
      var p := Passenger(others[destPick % |others|], None);
      assert p.destinationShape in others;
      assert (stations[start].passengers + [p])[..|stations[start].passengers|] == stations[start].passengers;
      stations[start := stations[start].(passengers := stations[start].passengers + [p])]
  }

  /** The stations after a station spawn: a station with no passengers and
      no lines, of shape `shapes[shapePick % |shapes|]`, appears at (x, y)
      exactly when there are fewer than `limit` stations and none crowds
      that point. */
  function WithStation(stations: seq<Station>, limit: nat, shapes: seq<Shape>, x: int, y: int, shapePick: nat)
    : (r: seq<Station>)
    requires |shapes| > 0
    ensures r == stations || (|r| == |stations| + 1 && r[..|stations|] == stations)
    ensures |r| == |stations| + 1 <==>
              |stations| < limit && forall s :: 0 <= s < |stations| ==> !Crowds(stations[s], x, y)
    ensures |r| == |stations| + 1 ==>
              && |r| <= limit
              && r[|stations|].x == x && r[|stations|].y == y && r[|stations|].shape in shapes
              && r[|stations|].passengers == [] && r[|stations|].lines == []
  {
    if |stations| < limit && !Overlaps(stations, x, y) then
      var r := stations + [Station(x, y, shapes[shapePick % |shapes|], [], [])];
      assert r[..|stations|] == stations;
      r
    else stations
  }

  /** A passenger spawn adds at most one waiting passenger. */
  lemma PassengerSpawnTotal(stations: seq<Station>, spawnPick: nat, destPick: nat)
    requires |stations| > 0
    ensures QueueTotal(stations) <= QueueTotal(WithPassenger(stations, spawnPick, destPick))
              <= QueueTotal(stations) + 1
  {
    var r := WithPassenger(stations, spawnPick, destPick);
    var start := spawnPick % |stations|;
    assert r == stations[start := r[start]];
    QueueTotalUpdate(stations, start, r[start]);
  }

  /** A station spawn adds no waiting passenger. */
  lemma WithStationTotal(stations: seq<Station>, limit: nat, shapes: seq<Shape>, x: int, y: int, shapePick: nat)
    requires |shapes| > 0
    ensures QueueTotal(WithStation(stations, limit, shapes, x, y, shapePick)) == QueueTotal(stations)
  {
    var r := WithStation(stations, limit, shapes, x, y, shapePick);
    if r != stations {
      assert r == stations + [r[|stations|]];
      QueueTotalAppend(stations, r[|stations|]);
    }
  }

  /** Some station has more waiting passengers than `capacity`. */
  ghost predicate Overcrowded(stations: seq<Station>, capacity: nat) {
    exists s :: 0 <= s < |stations| && |stations[s].passengers| > capacity
  }

  // ---------------------------------------------------------------------
  // Shared-track map

  /** A track segment between two stations, whichever way it is run: the
      smaller index first. */
  datatype Segment = Segment(lo: nat, hi: nat)

  function SegmentOf(a: nat, b: nat): (seg: Segment)
    ensures seg.lo <= seg.hi
    ensures (seg.lo == a && seg.hi == b) || (seg.lo == b && seg.hi == a)
  {
    if a <= b then Segment(a, b) else Segment(b, a)
  }


  /** Some leg `i` of `route`, with `i < j`, runs along `seg`. */
  ghost predicate RunsUpTo(route: seq<nat>, seg: Segment, j: int) {
    exists i :: 0 <= i < j && i + 1 < |route| && SegmentOf(route[i], route[i + 1]) == seg
  }

  /** Some leg of `route` runs along `seg`. */
  ghost predicate Runs(route: seq<nat>, seg: Segment) {
    RunsUpTo(route, seg, |route|)
  }

  lemma RunsUpToMono(route: seq<nat>, seg: Segment, j: int, j': int)
    requires RunsUpTo(route, seg, j) && j <= j'
    ensures RunsUpTo(route, seg, j')
  {
  }

  /** Line `x` is among those counted for `seg` once the legs of lines
      before `l`, and the legs of line `l` before `j`, are counted. */
  ghost predicate Counted(lines: seq<Line>, l: nat, j: int, seg: Segment, x: int) {
    || (0 <= x < l && x < |lines| && Runs(lines[x].stations, seg))
    || (x == l && l < |lines| && RunsUpTo(lines[l].stations, seg, j))
  }

  /** The map holds exactly the counted segments, each with exactly the
      counted lines, each line once. */
  ghost predicate Tally(lines: seq<Line>, l: nat, j: int, m: map<Segment, seq<nat>>) {
    && (forall seg: Segment, x: int :: Counted(lines, l, j, seg, x) ==> seg in m && x in m[seg])
    && (forall seg :: seg in m ==> |m[seg]| > 0 && NoDup(m[seg]))
    && (forall seg: Segment, x: int :: seg in m && x in m[seg] ==> Counted(lines, l, j, seg, x))
  }

  /** The shared-track map of `lines`: exactly the segments some line runs
      along, each listing exactly the lines that run along it, each once. */
  ghost predicate SegmentMap(lines: seq<Line>, m: map<Segment, seq<nat>>) {
    && (forall seg :: seg in m ==> |m[seg]| > 0 && NoDup(m[seg]))
    && (forall seg: Segment, x: int :: seg in m && x in m[seg] ==> x < |lines| && Runs(lines[x].stations, seg))
    && (forall seg: Segment, x: int :: 0 <= x < |lines| && Runs(lines[x].stations, seg) ==> seg in m && x in m[seg])
  }

  lemma TallyDone(lines: seq<Line>, m: map<Segment, seq<nat>>)
    requires Tally(lines, |lines|, 0, m)
    ensures SegmentMap(lines, m)
  {
    forall seg: Segment, x: int | seg in m && x in m[seg]
      ensures x < |lines| && Runs(lines[x].stations, seg)
    {
      assert Counted(lines, |lines|, 0, seg, x);
    }
    forall seg: Segment, x: int | 0 <= x < |lines| && Runs(lines[x].stations, seg)
      ensures seg in m && x in m[seg]
    {
      assert Counted(lines, |lines|, 0, seg, x);
    }
  }

  /** `m'` is `m` with line `l` recorded, at most once, under the segment
      of leg `i` of its route. */
  ghost predicate Records(lines: seq<Line>, l: nat, i: nat, m: map<Segment, seq<nat>>, m': map<Segment, seq<nat>>)
    requires l < |lines| && i + 1 < |lines[l].stations|
  {
    var seg := SegmentOf(lines[l].stations[i], lines[l].stations[i + 1]);
    && (forall s :: s != seg ==> (s in m' <==> s in m) && (s in m ==> m'[s] == m[s]))
    && seg in m'
    && m'[seg] == (if seg in m then m[seg] else []) + (if seg in m && l in m[seg] then [] else [l])
  }

  /** Counting one more leg, `i`, of line `l`. */
  lemma TallyLeg(lines: seq<Line>, l: nat, i: nat, m: map<Segment, seq<nat>>, m': map<Segment, seq<nat>>)
    requires l < |lines| && i + 1 < |lines[l].stations| && Tally(lines, l, i, m)
    requires Records(lines, l, i, m, m')
    ensures Tally(lines, l, i + 1, m')
  {
    LegComplete(lines, l, i, i + 1, m, m');
    LegSound(lines, l, i, i + 1, m, m');
    LegNoDup(lines, l, i, m, m');
  }

  lemma LegComplete(lines: seq<Line>, l: nat, i: nat, next: int, m: map<Segment, seq<nat>>, m': map<Segment, seq<nat>>)
    requires l < |lines| && i + 1 < |lines[l].stations| && Tally(lines, l, i, m)
    requires Records(lines, l, i, m, m') && next == i + 1
    ensures forall s: Segment, x: int :: Counted(lines, l, next, s, x) ==> s in m' && x in m'[s]
  {
    var route := lines[l].stations;
    var seg := SegmentOf(route[i], route[i + 1]);
    forall s: Segment, x: int | Counted(lines, l, next, s, x)
      ensures s in m' && x in m'[s]
    {
      if x == l && s == seg {
        assert l in m'[seg];
      } else {
        if x == l {
          RunsUpToStep(route, s, i);
        }
        assert Counted(lines, l, i, s, x);
        RecordsKeeps(lines, l, i, m, m', s, x);
      }
    }
  }

  /** A leg before `i + 1` is leg `i` or a leg before `i`. */
  lemma RunsUpToStep(route: seq<nat>, seg: Segment, i: nat)
    requires i + 1 < |route| && RunsUpTo(route, seg, i + 1)
    ensures RunsUpTo(route, seg, i) || seg == SegmentOf(route[i], route[i + 1])
  {
  }

  /** Recording a leg keeps everything recorded before. */
  lemma RecordsKeeps(lines: seq<Line>, l: nat, i: nat, m: map<Segment, seq<nat>>, m': map<Segment, seq<nat>>,
                     s: Segment, x: int)
    requires l < |lines| && i + 1 < |lines[l].stations| && Records(lines, l, i, m, m')
    requires s in m && x in m[s]
    ensures s in m' && x in m'[s]
  {
  }

  lemma LegSound(lines: seq<Line>, l: nat, i: nat, next: int, m: map<Segment, seq<nat>>, m': map<Segment, seq<nat>>)
    requires l < |lines| && i + 1 < |lines[l].stations| && Tally(lines, l, i, m)
    requires Records(lines, l, i, m, m') && next == i + 1
    ensures forall s: Segment, x: int :: s in m' && x in m'[s] ==> Counted(lines, l, next, s, x)
  {
    var route := lines[l].stations;
    var seg := SegmentOf(route[i], route[i + 1]);
    assert RunsUpTo(route, seg, i + 1);
    forall s: Segment, x: int | s in m' && x in m'[s]
      ensures Counted(lines, l, next, s, x)
    {
      if !(s == seg && x == l) {
        assert x in m[s];
        assert Counted(lines, l, i, s, x);
        if x == l {
          RunsUpToMono(route, s, i, i + 1);
        }
      }
    }
  }

  lemma LegNoDup(lines: seq<Line>, l: nat, i: nat, m: map<Segment, seq<nat>>, m': map<Segment, seq<nat>>)
    requires l < |lines| && i + 1 < |lines[l].stations| && Tally(lines, l, i, m)
    requires Records(lines, l, i, m, m')
    ensures forall s :: s in m' ==> |m'[s]| > 0 && NoDup(m'[s])
  {
    var seg := SegmentOf(lines[l].stations[i], lines[l].stations[i + 1]);
    forall s | s in m'
      ensures |m'[s]| > 0 && NoDup(m'[s])
    {
      if s == seg && seg in m && l !in m[seg] {
        var q := m[seg];
        assert m'[s] == q + [l];
        assert forall a :: 0 <= a < |q| ==> (q + [l])[a] == q[a];
      }
    }
  }

  /** Moving from the last leg of line `l` to line `l + 1`. */
  lemma TallyNextLine(lines: seq<Line>, l: nat, j: int, m: map<Segment, seq<nat>>)
    requires l < |lines| && Tally(lines, l, j, m)
    requires j == if |lines[l].stations| > 0 then |lines[l].stations| - 1 else 0
    ensures Tally(lines, l + 1, 0, m)
  {
    var route := lines[l].stations;
    var next := l + 1;
    forall seg | Runs(route, seg)
      ensures RunsUpTo(route, seg, j)
    {
    }
    forall seg: Segment, x: int | Counted(lines, next, 0, seg, x)
      ensures Counted(lines, l, j, seg, x)
    {
    }
    forall seg: Segment, x: int | Counted(lines, l, j, seg, x)
      ensures Counted(lines, next, 0, seg, x)
    {
      if x == l {
        RunsUpToMono(route, seg, j, |route|);
      }
    }
  }

  /** The segment-sharing loop of a tick (before its sort by colour, which
      only orders the drawing): for every line in order, each of its legs
      is recorded under its segment, the line at most once. */
  method BuildSegmentMap(lines: seq<Line>) returns (m: map<Segment, seq<nat>>)
    ensures SegmentMap(lines, m)
  {
    m := map[];
    for l := 0 to |lines|
      invariant Tally(lines, l, 0, m)
    {
      var route := lines[l].stations;
      var legs := if |route| > 0 then |route| - 1 else 0;
      for i := 0 to legs
        invariant Tally(lines, l, i, m)
      {
        var seg := SegmentOf(route[i], route[i + 1]);
        var m' := m;
        if seg !in m' {
          m' := m'[seg := []];
        }
        if l !in m'[seg] {
          m' := m'[seg := m'[seg] + [l]];
        }
        TallyLeg(lines, l, i, m, m');
        m := m';
      }
      TallyNextLine(lines, l, legs, m);
    }
    TallyDone(lines, m);
  }

  // ---------------------------------------------------------------------
  // The game

  class Game {
    const net: Network
    const stationSpawnRate: nat
    const stationLimit: nat
    const spawnLimit: nat
    const stationCapacity: nat
    const shapes: seq<Shape>
    const colors: seq<Color>
    var passengerSpawnRate: nat
    var timer: nat
    var passengersTrips: nat
    var selected: Option<nat>
    var gameOver: bool
    var paused: bool
    var forceNewLine: bool
    var segmentMap: map<Segment, seq<nat>>

    /** The game invariant: a valid network, a spawn rate at or above its
        floor, no more stations than the limit, no more lines than colours,
        and the selection, if any, a station. */
    ghost predicate Valid()
      reads this, net
    {
      && net.Valid()
      && 0 < spawnLimit <= passengerSpawnRate && stationSpawnRate > 0 && |shapes| > 0
      && |net.stations| <= stationLimit
      && |net.lines| <= |colors|
      && (selected.Some? ==> selected.value < |net.stations|)
    }

    /** A new game at difficulty `d` on the map of `city`: the settings of
        the difficulty, the city's three stations, no lines, nothing
        selected, the clock and the trip count at zero. */
    constructor(d: Difficulty, city: City)
      ensures Valid() && fresh(net)
      ensures var c := SettingsFor(d);
              && passengerSpawnRate == c.passengerSpawnRate && stationSpawnRate == c.stationSpawnRate
              && stationLimit == c.stationLimit && spawnLimit == c.spawnLimit
              && stationCapacity == c.stationCapacity && shapes == c.shapes && colors == c.colors
      ensures net.stations == Opening(city) && net.lines == []
      ensures timer == 0 && passengersTrips == 0 && selected == None
      ensures !gameOver && !paused && !forceNewLine && segmentMap == map[]
    {
      var c := SettingsFor(d);
      var n := new Network();
      var opening := Opening(city);
      for i := 0 to 3
        invariant n.Valid() && n.stations == opening[..i] && n.lines == []
      {
        var s := n.AddStation(opening[i].x, opening[i].y, opening[i].shape);
        assert opening[..i + 1] == opening[..i] + [opening[i]];
      }
      net := n;
      passengerSpawnRate, stationSpawnRate := c.passengerSpawnRate, c.stationSpawnRate;
      stationLimit, spawnLimit, stationCapacity := c.stationLimit, c.spawnLimit, c.stationCapacity;
      shapes, colors := c.shapes, c.colors;
      timer, passengersTrips, selected := 0, 0, None;
      gameOver, paused, forceNewLine, segmentMap := false, false, false, map[];
    }

    /** The overcrowding check at the end of a tick: the game is over once
        any station holds more than `stationCapacity` passengers. */
    method CheckCrowding()
      modifies this
      ensures gameOver == (old(gameOver) || Overcrowded(net.stations, stationCapacity))
      ensures passengerSpawnRate == old(passengerSpawnRate) && timer == old(timer)
      ensures passengersTrips == old(passengersTrips) && selected == old(selected)
      ensures paused == old(paused) && forceNewLine == old(forceNewLine) && segmentMap == old(segmentMap)
    {
      for s := 0 to |net.stations|
        invariant gameOver == (old(gameOver) || exists t :: 0 <= t < s && |net.stations[t].passengers| > stationCapacity)
        invariant passengerSpawnRate == old(passengerSpawnRate) && timer == old(timer)
        invariant passengersTrips == old(passengersTrips) && selected == old(selected)
        invariant paused == old(paused) && forceNewLine == old(forceNewLine) && segmentMap == old(segmentMap)
      {
        if |net.stations[s].passengers| > stationCapacity {
          gameOver := true;
        }
      }
    }

    /** The stations after the spawns of a tick at the current clock: a
        passenger spawn when the clock is a multiple of `passengerSpawnRate`
        and there is a station, then a station spawn when the clock is a
        positive multiple of `stationSpawnRate`. */
    function Spawned(stations: seq<Station>, spawnPick: nat, destPick: nat, x: int, y: int, shapePick: nat)
      : (r: seq<Station>)
      reads this
      requires passengerSpawnRate > 0 && stationSpawnRate > 0 && |shapes| > 0
      ensures |stations| <= |r| <= |stations| + 1
      ensures QueueTotal(stations) <= QueueTotal(r) <= QueueTotal(stations) + 1
      ensures timer % passengerSpawnRate != 0 && (timer == 0 || timer % stationSpawnRate != 0) ==> r == stations
      ensures (timer == 0 || timer % stationSpawnRate != 0) ==> |r| == |stations|
      ensures timer % passengerSpawnRate != 0 ==> QueueTotal(r) == QueueTotal(stations)
    {
      var afterPassenger :=
        if timer % passengerSpawnRate == 0 && |stations| > 0 then WithPassenger(stations, spawnPick, destPick)
        else stations;
      assert QueueTotal(stations) <= QueueTotal(afterPassenger) <= QueueTotal(stations) + 1 by {
        if timer % passengerSpawnRate == 0 && |stations| > 0 {
          PassengerSpawnTotal(stations, spawnPick, destPick);
        }
      }
      WithStationTotal(afterPassenger, stationLimit, shapes, x, y, shapePick);
      if timer > 0 && timer % stationSpawnRate == 0
      then WithStation(afterPassenger, stationLimit, shapes, x, y, shapePick)
      else afterPassenger
    }

    /** The passenger spawn of a tick: a passenger appears at station
        `spawnPick % |stations|`, bound for shape `destPick % k` among the k
        shapes of the other-shaped stations, when there are any. */
    method SpawnPassenger(spawnPick: nat, destPick: nat)
      requires Valid() && |net.stations| > 0
      modifies net
      ensures Valid() && net.lines == old(net.lines)
      ensures net.stations == WithPassenger(old(net.stations), spawnPick, destPick)
      ensures old(Population(net.stations, net.lines)) <= Population(net.stations, net.lines)
                <= old(Population(net.stations, net.lines)) + 1
    {
      PassengerSpawnTotal(net.stations, spawnPick, destPick);
      var start := spawnPick % |net.stations|;
      var others := OtherShapes(net.stations, net.stations[start].shape);
      if others != [] {
        var dest := others[destPick % |others|];
        assert dest in others;
        net.AddPassenger(start, dest);
      }
    }

    /** The station spawn of a tick: below the station limit, a station of
        shape `shapes[shapePick % |shapes|]` appears at (x, y) unless some
        station is within four radii of that point. */
    method SpawnStation(x: int, y: int, shapePick: nat)
      requires Valid()
      modifies net
      ensures Valid() && net.lines == old(net.lines)
      ensures net.stations == WithStation(old(net.stations), stationLimit, shapes, x, y, shapePick)
      ensures Population(net.stations, net.lines) == old(Population(net.stations, net.lines))
    {
      if |net.stations| < stationLimit {
        var shape := shapes[shapePick % |shapes|];
        if !Overlaps(net.stations, x, y) {
          QueueTotalAppend(net.stations, Station(x, y, shape, [], []));
          var s := net.AddStation(x, y, shape);
        }
      }
    }

    /** The start of a running tick: the clock advances, every 180th tick
        the spawn interval shrinks by one down to its floor, and the
        shared-track map is rebuilt from the lines. */
    method Advance()
      requires Valid()
      modifies this
      ensures Valid()
      ensures timer == old(timer) + 1
      ensures passengerSpawnRate == if old(passengerSpawnRate) > spawnLimit && timer % 180 == 0
                                    then old(passengerSpawnRate) - 1 else old(passengerSpawnRate)
      ensures SegmentMap(net.lines, segmentMap)
      ensures passengersTrips == old(passengersTrips) && selected == old(selected) && gameOver == old(gameOver)
      ensures paused == old(paused) && forceNewLine == old(forceNewLine)
    {
      timer := timer + 1;
      if passengerSpawnRate > spawnLimit && timer % 180 == 0 {
        passengerSpawnRate := passengerSpawnRate - 1;
      }
      segmentMap := BuildSegmentMap(net.lines);
    }

    /** The rest of a running, unpaused tick: every train moves, the
        passengers it delivers join the trip count, a passenger spawns every
        `passengerSpawnRate` ticks and a station every `stationSpawnRate`
        ticks, and the game ends once a station is overcrowded.  Passengers
        are only created (at most one) or delivered, never lost.  `moved`
        is the stations after the trains moved and before the spawns. */
    method Run(distanceOf: (nat, nat) -> real, spawnPick: nat, destPick: nat, x: int, y: int, shapePick: nat)
      returns (ghost moved: seq<Station>, ghost trace: seq<(seq<Station>, seq<Line>)>)
      requires Valid() && !gameOver
      modifies this, net
      ensures Valid()
      ensures SameLayout(old(net.stations), old(net.lines), moved, net.lines)
      ensures AllMoved(old(net.stations), old(net.lines), net.lines, distanceOf)
      ensures Replayed(old(net.stations), old(net.lines), Order(old(net.lines)), distanceOf, trace, moved, net.lines)
      ensures passengersTrips == old(passengersTrips) + DeliveredAll(old(net.stations), old(net.lines), distanceOf)
      ensures Population(moved, net.lines) + passengersTrips
              == old(Population(net.stations, net.lines)) + old(passengersTrips)
      ensures net.stations == Spawned(moved, spawnPick, destPick, x, y, shapePick)
      ensures timer == old(timer) && passengerSpawnRate == old(passengerSpawnRate) && selected == old(selected)
      ensures paused == old(paused) && forceNewLine == old(forceNewLine) && segmentMap == old(segmentMap)
      ensures gameOver == Overcrowded(net.stations, stationCapacity)
      ensures |old(net.stations)| <= |net.stations| <= |old(net.stations)| + 1
      ensures old(Population(net.stations, net.lines)) + old(passengersTrips)
                <= Population(net.stations, net.lines) + passengersTrips
                <= old(Population(net.stations, net.lines)) + old(passengersTrips) + 1
    {
      trace := MoveAll(distanceOf);
      moved := net.stations;
      Spawn(spawnPick, destPick, x, y, shapePick);
      CheckCrowding();
    }

    /** Every train moves; the passengers delivered join the trip count. */
    method MoveAll(distanceOf: (nat, nat) -> real) returns (ghost trace: seq<(seq<Station>, seq<Line>)>)
      requires Valid()
      modifies this, net
      ensures Valid()
      ensures timer == old(timer) && passengerSpawnRate == old(passengerSpawnRate) && selected == old(selected)
      ensures paused == old(paused) && forceNewLine == old(forceNewLine) && segmentMap == old(segmentMap)
      ensures gameOver == old(gameOver)
      ensures SameLayout(old(net.stations), old(net.lines), net.stations, net.lines)
      ensures AllMoved(old(net.stations), old(net.lines), net.lines, distanceOf)
      ensures Replayed(old(net.stations), old(net.lines), Order(old(net.lines)), distanceOf, trace, net.stations, net.lines)
      ensures passengersTrips == old(passengersTrips) + DeliveredAll(old(net.stations), old(net.lines), distanceOf)
      ensures Population(net.stations, net.lines) + passengersTrips
              == old(Population(net.stations, net.lines)) + old(passengersTrips)
    {
      var delivered;
      delivered, trace := net.MoveTrains(distanceOf);
      passengersTrips := passengersTrips + delivered;
    }

    /** The spawns of a tick: a passenger every `passengerSpawnRate` ticks,
        a station every `stationSpawnRate` ticks. */
    method Spawn(spawnPick: nat, destPick: nat, x: int, y: int, shapePick: nat)
      requires Valid()
      modifies net
      ensures Valid() && net.lines == old(net.lines)
      ensures net.stations == Spawned(old(net.stations), spawnPick, destPick, x, y, shapePick)
      ensures |old(net.stations)| <= |net.stations| <= |old(net.stations)| + 1
      ensures old(Population(net.stations, net.lines)) <= Population(net.stations, net.lines)
                <= old(Population(net.stations, net.lines)) + 1
    {
      if timer % passengerSpawnRate == 0 && |net.stations| > 0 {
        SpawnPassenger(spawnPick, destPick);
      }
      if timer > 0 && timer % stationSpawnRate == 0 {
        SpawnStation(x, y, shapePick);
      }
    }

    /** One tick.  A finished game changes nothing.  Otherwise the tick
        advances the clock, the spawn ramp and the shared-track map; a
        paused game stops there, a running one goes on with `Run`.  The
        random draws are the parameters: `distanceOf` gives each train's
        distance to its target, the rest pick the spawns.  `moved` is the
        stations after the trains moved and before the spawns. */
    method Step(distanceOf: (nat, nat) -> real, spawnPick: nat, destPick: nat, x: int, y: int, shapePick: nat)
      returns (ghost moved: seq<Station>, ghost trace: seq<(seq<Station>, seq<Line>)>)
      requires Valid()
      modifies this, net
      ensures Valid()
      ensures old(gameOver) ==> unchanged(this) && unchanged(net)
      ensures !old(gameOver) ==>
                && timer == old(timer) + 1
                && passengerSpawnRate == (if old(passengerSpawnRate) > spawnLimit && timer % 180 == 0
                                          then old(passengerSpawnRate) - 1 else old(passengerSpawnRate))
                && SegmentMap(old(net.lines), segmentMap)
                && selected == old(selected) && paused == old(paused) && forceNewLine == old(forceNewLine)
      ensures !old(gameOver) && old(paused) ==>
                && net.stations == old(net.stations) && net.lines == old(net.lines)
                && !gameOver && passengersTrips == old(passengersTrips)
      ensures !old(gameOver) && !old(paused) ==>
                && gameOver == Overcrowded(net.stations, stationCapacity)
                && SameLayout(old(net.stations), old(net.lines), moved, net.lines)
                && AllMoved(old(net.stations), old(net.lines), net.lines, distanceOf)
                && Replayed(old(net.stations), old(net.lines), Order(old(net.lines)), distanceOf, trace, moved, net.lines)
                && passengersTrips == old(passengersTrips) + DeliveredAll(old(net.stations), old(net.lines), distanceOf)
                && Population(moved, net.lines) + passengersTrips
                   == old(Population(net.stations, net.lines)) + old(passengersTrips)
                && net.stations == Spawned(moved, spawnPick, destPick, x, y, shapePick)
                && |old(net.stations)| <= |net.stations| <= |old(net.stations)| + 1
                && old(Population(net.stations, net.lines)) + old(passengersTrips)
                   <= Population(net.stations, net.lines) + passengersTrips
                   <= old(Population(net.stations, net.lines)) + old(passengersTrips) + 1
    {
      moved, trace := net.stations, [];
      if gameOver {
        return;
      }
      Advance();
      if paused {
        return;
      }
      moved, trace := Run(distanceOf, spawnPick, destPick, x, y, shapePick);
    }

    /** A new line, of the next unused colour, from station `a` to station
        `b`: it runs a to b, carries one train starting at a, and both
        stations list it. */
    method OpenLine(a: nat, b: nat)
      requires Valid() && a < |net.stations| && b < |net.stations| && a != b && |net.lines| < |colors|
      modifies net
      ensures Valid()
      ensures net.lines == old(net.lines) + [Line([a, b], colors[|old(net.lines)|], [NewTrain(0, 2)])]
      ensures var l := |old(net.lines)|;
              net.stations == old(net.stations)[a := old(net.stations[a]).(lines := old(net.stations[a].lines) + [l])]
                                               [b := old(net.stations[b]).(lines := old(net.stations[b].lines) + [l])]
    {
      ghost var (s0, l0) := (net.stations, net.lines);
      var color := colors[|net.lines|];
      var l := net.AddLine(color);
      net.LinkStation(l, a);
      assert [] + [a] == [a];
      assert net.lines[l] == Line([a], color, []);
      assert net.lines == l0 + [Line([a], color, [])];
      net.LinkStation(l, b);
      assert [a] + [b] == [a, b] && [] + [NewTrain(0, 2)] == [NewTrain(0, 2)];
      assert net.lines[l] == Line([a, b], color, [NewTrain(0, 2)]);
      assert net.lines == l0 + [Line([a, b], color, [NewTrain(0, 2)])];
    }

    /** The network (stations, lines) is (s0, l0) after joining station `a`
        to station `b`.  When `FindExtendableLine` finds a line and no new
        line is forced, that line is extended and the station added to it
        records the line.  Otherwise, while a colour is left, a line of the
        next colour opens from a to b with one train, and both stations
        record it.  Otherwise nothing changes. */
    ghost predicate Joined(s0: seq<Station>, l0: seq<Line>, a: nat, b: nat, stations: seq<Station>, lines: seq<Line>)
      reads this
      requires Graph.Valid(s0, l0) && a < |s0| && b < |s0|
    {
      var found := FindExtendableLine(s0, l0, a, b);
      if found.Some? && !forceNewLine then
        var (l, endpoint, newStation) := found.value;
        && lines == l0[l := Extended(l0[l], newStation, endpoint)]
        && stations == s0[newStation := s0[newStation].(lines := s0[newStation].lines + [l])]
      else if |l0| < |colors| then
        var l := |l0|;
        && lines == l0 + [Line([a, b], colors[l], [NewTrain(0, 2)])]
        && stations == s0[a := s0[a].(lines := s0[a].lines + [l])][b := s0[b].(lines := s0[b].lines + [l])]
      else
        lines == l0 && stations == s0
    }

    /** Joining two different stations: the line `FindExtendableLine` picks
        is extended, unless there is none or a new line is forced; then a new
        line is opened if a colour is left, and otherwise nothing changes. */
    method Connect(a: nat, b: nat)
      requires Valid() && a < |net.stations| && b < |net.stations| && a != b
      modifies net
      ensures Valid()
      ensures Joined(old(net.stations), old(net.lines), a, b, net.stations, net.lines)
    {
      ghost var (s0, l0) := (net.stations, net.lines);
      var found := FindExtendableLine(net.stations, net.lines, a, b);
      if found.Some? && !forceNewLine {
        ExtendableLineGrows(net.stations, net.lines, a, b);
        var (l, endpoint, newStation) := found.value;
        net.ExtendLine(l, newStation, endpoint);
        assert |net.lines[l].stations| == |l0[l].stations| + 1;
        assert net.stations == s0[newStation := s0[newStation].(lines := s0[newStation].lines + [l])];
      } else if |net.lines| < |colors| {
        OpenLine(a, b);
      }
    }

    /** A click on station `clicked` (None: on empty space).  A finished
        game ignores clicks.  Empty space clears the selection; the first
        station clicked becomes the selection; clicking it again clears it.
        A second, different station is joined to the selection by `Connect`
        and the selection is cleared. */
    method Click(clicked: Option<nat>)
      requires Valid() && (clicked.Some? ==> clicked.value < |net.stations|)
      modifies this, net
      ensures Valid()
      ensures old(gameOver) ==> unchanged(this) && unchanged(net)
      ensures timer == old(timer) && passengerSpawnRate == old(passengerSpawnRate)
      ensures passengersTrips == old(passengersTrips) && gameOver == old(gameOver)
      ensures paused == old(paused) && forceNewLine == old(forceNewLine) && segmentMap == old(segmentMap)
      ensures !old(gameOver) ==> selected == if clicked.Some? && old(selected).None? then clicked else None
      ensures !old(gameOver) && (clicked.None? || old(selected).None? || clicked == old(selected)) ==>
                net.stations == old(net.stations) && net.lines == old(net.lines)
      ensures !old(gameOver) && old(selected).Some? && clicked.Some? && clicked != old(selected) ==>
                Joined(old(net.stations), old(net.lines), old(selected).value, clicked.value, net.stations, net.lines)
    {
      if gameOver {
        return;
      }
      if clicked.None? {
        selected := None;
      } else if selected.None? {
        selected := clicked;
      } else if selected == clicked {
        selected := None;
      } else {
        Connect(selected.value, clicked.value);
        selected := None;
      }
    }
  }
}
