/** The network object: the stations and lines of a game, and the operations
    that change them in place (adding stations, passengers and lines,
    linking and extending lines, moving trains).  Every operation keeps the
    network invariant `Graph.Valid`. */
module Transit {
  import opened Model
  import opened Graph
  import opened Trains

  // ---------------------------------------------------------------------
  // Head counts

  /** Passengers waiting at the stations. */
  function QueueTotal(stations: seq<Station>): nat {
    if stations == [] then 0
    else QueueTotal(stations[..|stations| - 1]) + |stations[|stations| - 1].passengers|
  }

  /** Passengers aboard the trains `trains`. */
  function RiderTotal(trains: seq<Train>): nat {
    if trains == [] then 0
    else RiderTotal(trains[..|trains| - 1]) + |trains[|trains| - 1].passengers|
  }

  /** Passengers aboard the trains of all lines. */
  function OnboardTotal(lines: seq<Line>): nat {
    if lines == [] then 0
    else OnboardTotal(lines[..|lines| - 1]) + RiderTotal(lines[|lines| - 1].trains)
  }

  /** Everyone in the network, waiting or riding. */
  function Population(stations: seq<Station>, lines: seq<Line>): nat {
    QueueTotal(stations) + OnboardTotal(lines)
  }

  lemma {:induction false} QueueTotalUpdate(stations: seq<Station>, i: nat, st: Station)
    requires i < |stations|
    ensures QueueTotal(stations[i := st]) + |stations[i].passengers| == QueueTotal(stations) + |st.passengers|
    decreases |stations|
  {
    var n := |stations| - 1;
    if i < n {
      assert stations[i := st][..n] == stations[..n][i := st];
      QueueTotalUpdate(stations[..n], i, st);
    } else {
      assert stations[i := st][..n] == stations[..n];
    }
  }

  lemma QueueTotalAppend(stations: seq<Station>, st: Station)
    ensures QueueTotal(stations + [st]) == QueueTotal(stations) + |st.passengers|
  {
    assert (stations + [st])[..|stations|] == stations;
  }

  lemma {:induction false} RiderTotalUpdate(trains: seq<Train>, k: nat, t: Train)
    requires k < |trains|
    ensures RiderTotal(trains[k := t]) + |trains[k].passengers| == RiderTotal(trains) + |t.passengers|
    decreases |trains|
  {
    var n := |trains| - 1;
    if k < n {
      assert trains[k := t][..n] == trains[..n][k := t];
      RiderTotalUpdate(trains[..n], k, t);
    } else {
      assert trains[k := t][..n] == trains[..n];
    }
  }

  lemma {:induction false} OnboardTotalUpdate(lines: seq<Line>, l: nat, line: Line)
    requires l < |lines|
    ensures OnboardTotal(lines[l := line]) + RiderTotal(lines[l].trains)
            == OnboardTotal(lines) + RiderTotal(line.trains)
    decreases |lines|
  {
    var n := |lines| - 1;
    if l < n {
      assert lines[l := line][..n] == lines[..n][l := line];
      OnboardTotalUpdate(lines[..n], l, line);
    } else {
      assert lines[l := line][..n] == lines[..n];
    }
  }

  // ---------------------------------------------------------------------
  // Layout

  /** The second network has the same stations (positions, shapes, lines)
      and the same lines (routes, colours, number of trains) as the first;
      only passengers and train positions may differ. */
  ghost predicate SameLayout(stations: seq<Station>, lines: seq<Line>, stations': seq<Station>, lines': seq<Line>) {
    && |stations'| == |stations|
    && (forall s :: 0 <= s < |stations| ==>
          && stations'[s].x == stations[s].x && stations'[s].y == stations[s].y
          && stations'[s].shape == stations[s].shape && stations'[s].lines == stations[s].lines)
    && |lines'| == |lines|
    && (forall l :: 0 <= l < |lines| ==>
          && lines'[l].stations == lines[l].stations && lines'[l].color == lines[l].color
          && |lines'[l].trains| == |lines[l].trains|)
  }

  lemma SameLayoutTrans(s0: seq<Station>, l0: seq<Line>, s1: seq<Station>, l1: seq<Line>,
                        s2: seq<Station>, l2: seq<Line>)
    requires SameLayout(s0, l0, s1, l1) && SameLayout(s1, l1, s2, l2)
    ensures SameLayout(s0, l0, s2, l2)
  {
  }

  lemma SameLayoutQueue(stations: seq<Station>, lines: seq<Line>, s: nat, queue: seq<Passenger>)
    requires s < |stations|
    ensures SameLayout(stations, lines, stations[s := stations[s].(passengers := queue)], lines)
  {
  }

  lemma SameLayoutTrain(stations: seq<Station>, lines: seq<Line>, l: nat, k: nat, t: Train)
    requires l < |lines| && k < |lines[l].trains|
    ensures SameLayout(stations, lines, stations, lines[l := lines[l].(trains := lines[l].trains[k := t])])
  {
  }

  /** The adjacency of a network depends on its layout only. */
  lemma {:induction false} SameLayoutNeighbors(stations: seq<Station>, lines: seq<Line>,
                                               stations': seq<Station>, lines': seq<Line>, u: nat)
    requires WellFormed(stations, lines) && SameLayout(stations, lines, stations', lines')
    requires u < |stations|
    ensures WellFormed(stations', lines')
    ensures Neighbors(stations', lines', u) == Neighbors(stations, lines, u)
  {
    NeighborsViaSame(stations[u].lines, lines, lines', u);
  }

  lemma {:induction false} NeighborsViaSame(ls: seq<nat>, lines: seq<Line>, lines': seq<Line>, s: nat)
    requires IdsBelow(ls, |lines|) && |lines'| == |lines|
    requires forall l :: 0 <= l < |lines| ==> lines'[l].stations == lines[l].stations
    ensures NeighborsVia(ls, lines', s) == NeighborsVia(ls, lines, s)
    decreases |ls|
  {
    if ls != [] {
      NeighborsViaSame(ls[..|ls| - 1], lines, lines', s);
    }
  }

  // ---------------------------------------------------------------------
  // Invariant preservation, one kind of change at a time

  lemma ValidAddStation(stations: seq<Station>, lines: seq<Line>, st: Station)
    requires Valid(stations, lines) && st.passengers == [] && st.lines == []
    ensures Valid(stations + [st], lines)
  {
    var stations' := stations + [st];
    assert forall s :: 0 <= s < |stations| ==> stations'[s] == stations[s];
  }

  lemma ValidQueue(stations: seq<Station>, lines: seq<Line>, s: nat, queue: seq<Passenger>)
    requires Valid(stations, lines) && s < |stations|
    requires forall p :: p in queue ==> p.destinationShape != stations[s].shape && p.transferStation == None
    ensures Valid(stations[s := stations[s].(passengers := queue)], lines)
  {
    var stations' := stations[s := stations[s].(passengers := queue)];
    assert forall t :: 0 <= t < |stations| ==> stations'[t].lines == stations[t].lines;
  }

  lemma ValidTrain(stations: seq<Station>, lines: seq<Line>, l: nat, k: nat, t: Train)
    requires Valid(stations, lines) && l < |lines| && k < |lines[l].trains|
    requires TrainOk(t, |lines[l].stations|) && |t.passengers| <= Capacity
    requires forall p :: p in t.passengers ==> RiderOk(p, lines[l].stations)
    ensures Valid(stations, lines[l := lines[l].(trains := lines[l].trains[k := t])])
  {
    var lines' := lines[l := lines[l].(trains := lines[l].trains[k := t])];
    assert forall m :: 0 <= m < |lines| ==> lines'[m].stations == lines[m].stations;
    assert LineOk(lines[l]);
    assert lines'[l].trains == [t];
  }

  /** Line `l` becomes `line'`, whose stations are those of line `l` and
      station `s`, and `s` records the line: the invariant is kept when
      `line'` is itself a valid line. */
  lemma AddToLine(stations: seq<Station>, lines: seq<Line>, l: nat, s: nat, line': Line)
    requires Valid(stations, lines) && l < |lines| && s < |stations| && s !in lines[l].stations
    requires forall v :: v in line'.stations <==> v in lines[l].stations || v == s
    requires LineOk(line')
    ensures Valid(stations[s := stations[s].(lines := stations[s].lines + [l])], lines[l := line'])
  {
    var stations' := stations[s := stations[s].(lines := stations[s].lines + [l])];
    assert l !in stations[s].lines;
    assert NoDup(stations'[s].lines);
    assert forall v :: 0 <= v < |stations| ==> stations'[v].passengers == stations[v].passengers;
    AddedWellFormed(stations, lines, l, s, line');
    AddedLinks(stations, lines, l, s, line');
  }

  /** The grown line and the station's new entry keep every index in range. */
  lemma AddedWellFormed(stations: seq<Station>, lines: seq<Line>, l: nat, s: nat, line': Line)
    requires WellFormed(stations, lines) && l < |lines| && s < |stations|
    requires forall v :: v in line'.stations <==> v in lines[l].stations || v == s
    ensures WellFormed(stations[s := stations[s].(lines := stations[s].lines + [l])], lines[l := line'])
  {
    assert IdsBelow(line'.stations, |stations|) by {
      forall k | 0 <= k < |line'.stations|
        ensures line'.stations[k] < |stations|
      {
        assert line'.stations[k] in line'.stations;
      }
    }
  }

  /** The grown line and the station's new entry keep the links between
      lines and stations symmetric. */
  lemma AddedLinks(stations: seq<Station>, lines: seq<Line>, l: nat, s: nat, line': Line)
    requires Valid(stations, lines) && l < |lines| && s < |stations|
    requires forall v :: v in line'.stations <==> v in lines[l].stations || v == s
    ensures var stations' := stations[s := stations[s].(lines := stations[s].lines + [l])];
            var lines' := lines[l := line'];
            && (forall m, v :: 0 <= m < |lines'| && v in lines'[m].stations ==> m in stations'[v].lines)
            && (forall v, m :: 0 <= v < |stations'| && m in stations'[v].lines ==> v in lines'[m].stations)
  {
    var stations' := stations[s := stations[s].(lines := stations[s].lines + [l])];
    var lines' := lines[l := line'];
    forall m, v | 0 <= m < |lines'| && v in lines'[m].stations
      ensures m in stations'[v].lines
    {
      if m != l {
        assert lines'[m] == lines[m];
      } else if v != s {
        assert v in lines[l].stations;
      }
    }
    forall v, m | 0 <= v < |stations'| && m in stations'[v].lines
      ensures v in lines'[m].stations
    {
      if v != s {
        assert stations'[v] == stations[v];
      }
    }
  }

  /** A line that links a station not yet on it stays well formed. */
  lemma LinkedLineOk(line: Line, s: nat)
    requires LineOk(line) && s !in line.stations
    ensures var route := line.stations + [s];
            LineOk(line.(stations := route, trains := line.trains + if |route| == 2 then [NewTrain(0, 2)] else []))
  {
    var route := line.stations + [s];
    var trains := line.trains + if |route| == 2 then [NewTrain(0, 2)] else [];
    if |route| == 2 {
      assert trains == [NewTrain(0, 2)];
    } else {
      assert trains == line.trains;
    }
  }

  /** Linking a station that is not yet on line `l` keeps the invariant. */
  lemma LinkKeepsValid(stations: seq<Station>, lines: seq<Line>, l: nat, s: nat)
    requires Valid(stations, lines) && l < |lines| && s < |stations| && s !in lines[l].stations
    ensures var line := lines[l];
            var route := line.stations + [s];
            var trains := line.trains + if |route| == 2 then [NewTrain(0, 2)] else [];
            Valid(stations[s := stations[s].(lines := stations[s].lines + [l])],
                  lines[l := line.(stations := route, trains := trains)])
  {
    var line := lines[l];
    var route := line.stations + [s];
    var trains := line.trains + if |route| == 2 then [NewTrain(0, 2)] else [];
    assert LineOk(line);
    LinkedLineOk(line, s);
    AddToLine(stations, lines, l, s, line.(stations := route, trains := trains));
  }

  /** Growing line `l` with `newStation` at `endStation` keeps the
      invariant. */
  lemma ExtendKeepsValid(stations: seq<Station>, lines: seq<Line>, l: nat, newStation: nat, endStation: nat)
    requires Valid(stations, lines) && l < |lines| && newStation < |stations| && |lines[l].stations| > 0
    requires |Extended(lines[l], newStation, endStation).stations| != |lines[l].stations|
    ensures Valid(stations[newStation := stations[newStation].(lines := stations[newStation].lines + [l])],
                  lines[l := Extended(lines[l], newStation, endStation)])
  {
    var line := lines[l];
    var line' := Extended(line, newStation, endStation);
    assert LineOk(line);
    ExtendedStops(line, newStation, endStation);
    assert LineOk(line');
    AddToLine(stations, lines, l, newStation, line');
  }

  // ---------------------------------------------------------------------
  // Re-indexing after a head insertion

  /** `trains` with both indices moved one place up. */
  function Shifted(trains: seq<Train>): (r: seq<Train>)
    ensures |r| == |trains|
    ensures forall k :: 0 <= k < |r| ==>
              r[k] == trains[k].(currentIndex := trains[k].currentIndex + 1,
                                 targetIndex := trains[k].targetIndex + 1)
  {
    if trains == [] then []
    else
      var t := trains[|trains| - 1];
      Shifted(trains[..|trains| - 1]) + [t.(currentIndex := t.currentIndex + 1, targetIndex := t.targetIndex + 1)]
  }

  /** After a station is put at the head of a route, the shifted trains sit
      at and head for the same stations as before, and stay valid. */
  lemma ShiftedStations(route: seq<nat>, s: nat, trains: seq<Train>)
    requires forall k :: 0 <= k < |trains| ==> TrainOk(trains[k], |route|)
    ensures SameStops(route, trains, [s] + route, Shifted(trains))
    ensures forall k :: 0 <= k < |Shifted(trains)| ==> TrainOk(Shifted(trains)[k], |route| + 1)
  {
  }

  /** Each train of `trains'` on `route'` is at and heads for the same
      stations as the corresponding train of `trains` on `route`. */
  ghost predicate SameStops(route: seq<nat>, trains: seq<Train>, route': seq<nat>, trains': seq<Train>) {
    && |trains'| == |trains|
    && forall k :: 0 <= k < |trains| ==>
         && 0 <= trains[k].currentIndex < |route| && 0 <= trains[k].targetIndex < |route|
         && 0 <= trains'[k].currentIndex < |route'| && 0 <= trains'[k].targetIndex < |route'|
         && route'[trains'[k].currentIndex] == route[trains[k].currentIndex]
         && route'[trains'[k].targetIndex] == route[trains[k].targetIndex]
  }

  lemma SameStopsRefl(route: seq<nat>, trains: seq<Train>)
    requires forall k :: 0 <= k < |trains| ==> TrainOk(trains[k], |route|)
    ensures SameStops(route, trains, route, trains)
  {
  }

  /** Appending a station at the tail leaves every train where it was. */
  lemma AppendedStations(route: seq<nat>, s: nat, trains: seq<Train>)
    requires forall k :: 0 <= k < |trains| ==> TrainOk(trains[k], |route|)
    ensures SameStops(route, trains, route + [s], trains)
    ensures forall k :: 0 <= k < |trains| ==> TrainOk(trains[k], |route| + 1)
  {
  }

  /** The line after `extendLine(newStation, endStation)`: the route as
      `ExtendRoute` makes it and, after a head insertion, the trains
      re-indexed. */
  function Extended(line: Line, newStation: nat, endStation: nat): Line
    requires |line.stations| > 0
  {
    var route := ExtendRoute(line.stations, newStation, endStation);
    if |route| == |line.stations| then line
    else if line.stations[0] == endStation then line.(stations := route, trains := Shifted(line.trains))
    else line.(stations := route)
  }

  /** Extending a line keeps its colour and its trains, each at and heading
      for the same stations as before; the train indices move up by one
      exactly when the station is put at the head. */
  lemma ExtendedStops(line: Line, newStation: nat, endStation: nat)
    requires |line.stations| > 0
    requires forall k :: 0 <= k < |line.trains| ==> TrainOk(line.trains[k], |line.stations|)
    ensures var line' := Extended(line, newStation, endStation);
            && line'.color == line.color
            && SameStops(line.stations, line.trains, line'.stations, line'.trains)
            && (forall k :: 0 <= k < |line'.trains| ==>
                  && TrainOk(line'.trains[k], |line'.stations|)
                  && line'.trains[k].passengers == line.trains[k].passengers)
            && (|line'.stations| == |line.stations| + 1 && line.stations[0] == endStation ==>
                  forall k :: 0 <= k < |line.trains| ==>
                    line'.trains[k].currentIndex == line.trains[k].currentIndex + 1)
            && (line.stations[0] != endStation ==> line'.trains == line.trains)
  {
    var route := ExtendRoute(line.stations, newStation, endStation);
    if |route| == |line.stations| {
      SameStopsRefl(line.stations, line.trains);
    } else if line.stations[0] == endStation {
      ShiftedStations(line.stations, newStation, line.trains);
    } else {
      AppendedStations(line.stations, newStation, line.trains);
    }
  }

  /** The re-indexing loop of a head insertion. */
  method ShiftTrains(trains: seq<Train>) returns (r: seq<Train>)
    ensures r == Shifted(trains)
  {
    r := [];
    for k := 0 to |trains|
      invariant r == Shifted(trains[..k])
    {
      assert trains[..k + 1][..k] == trains[..k];
      var t := trains[k];
      r := r + [t.(currentIndex := t.currentIndex + 1, targetIndex := t.targetIndex + 1)];
    }
    assert trains[..|trains|] == trains;
  }

  // ---------------------------------------------------------------------
  // The network object

  /** Train `k` of line `l` takes its turn: (`stations'`, `lines'`) is
      (`stations`, `lines`) after that train moves at `distance` from its
      target as `Train.move` does.  It moves as `Motion` says.  A train that
      does not arrive changes nothing else.  A train that arrives exchanges
      passengers at the station it reached, as `handlePassengers` does:
      the riders bound for the station's shape get off, those due to change
      there join the back of the station's queue with their transfer
      cleared, and the queue then boards in order as `Boarding` states.
      Only that train and that station's queue change. */
  ghost predicate TrainStep(stations: seq<Station>, lines: seq<Line>, l: nat, k: nat, distance: real,
                            stations': seq<Station>, lines': seq<Line>) {
    && WellFormed(stations, lines) && l < |lines| && k < |lines[l].trains|
    && var line := lines[l];
       var t := line.trains[k];
       var n := |line.stations|;
       && (Arrives(t, n, distance) ==> 0 <= t.targetIndex < n)
       && var r := Motion(t, n, distance);
          if !Arrives(t, n, distance) then
            stations' == stations && lines' == lines[l := line.(trains := line.trains[k := r])]
          else
            && |lines'| == |lines| && k < |lines'[l].trains| && |stations'| == |stations|
            && var st := line.stations[r.currentIndex];
               var shape := stations[st].shape;
               && lines' == lines[l := line.(trains := line.trains[k := r.(passengers := lines'[l].trains[k].passengers)])]
               && stations' == stations[st := stations[st].(passengers := stations'[st].passengers)]
               && Boarding(stations, lines, line.stations, st, Staying(t.passengers, shape, st),
                           stations[st].passengers + Cleared(Changing(t.passengers, shape, st)),
                           lines'[l].trains[k].passengers, stations'[st].passengers)
  }

  /** The turns of line `l`'s first `k` trains, in train order. */
  function Turns(l: nat, k: nat): (r: seq<(nat, nat)>)
    ensures |r| == k
  {
    if k == 0 then [] else Turns(l, k - 1) + [(l, k - 1)]
  }

  /** Turn `j` of line `l` belongs to its train `j`. */
  lemma {:induction false} TurnsOfLine(l: nat, k: nat)
    ensures forall j :: 0 <= j < k ==> Turns(l, k)[j] == (l, j)
  {
    if k > 0 {
      TurnsOfLine(l, k - 1);
      assert Turns(l, k) == Turns(l, k - 1) + [(l, k - 1)];
    }
  }

  /** The turns of the trains of the first `l` lines, line by line. */
  function TurnsUpTo(lines: seq<Line>, l: nat): seq<(nat, nat)>
    requires l <= |lines|
  {
    if l == 0 then [] else TurnsUpTo(lines, l - 1) + Turns(l - 1, |lines[l - 1].trains|)
  }

  /** The order in which the trains of a tick move: every train of every
      line, line by line and within a line train by train. */
  function Order(lines: seq<Line>): seq<(nat, nat)> {
    TurnsUpTo(lines, |lines|)
  }

  /** Turn `p` comes before turn `q`: an earlier line, or the same line and
      an earlier train. */
  predicate Earlier(p: (nat, nat), q: (nat, nat)) {
    p.0 < q.0 || (p.0 == q.0 && p.1 < q.1)
  }

  /** The turns of the first `l` lines name trains of those lines, each
      train of them once, in line order and then train order. */
  lemma {:induction false} TurnsUpToOrdered(lines: seq<Line>, l: nat)
    requires l <= |lines|
    ensures var turns := TurnsUpTo(lines, l);
            && (forall n :: 0 <= n < |turns| ==> turns[n].0 < l && turns[n].1 < |lines[turns[n].0].trains|)
            && (forall a, b :: 0 <= a < b < |turns| ==> Earlier(turns[a], turns[b]))
            && (forall i, j :: 0 <= i < l && 0 <= j < |lines[i].trains| ==> (i, j) in turns)
    decreases l
  {
    if l > 0 {
      TurnsUpToOrdered(lines, l - 1);
      var prev := TurnsUpTo(lines, l - 1);
      var last := Turns(l - 1, |lines[l - 1].trains|);
      TurnsOfLine(l - 1, |lines[l - 1].trains|);
      assert TurnsUpTo(lines, l) == prev + last;
      forall i, j | 0 <= i < l && 0 <= j < |lines[i].trains|
        ensures (i, j) in prev + last
      {
        if i < l - 1 {
          assert (i, j) in prev;
        } else {
          assert last[j] == (i, j);
        }
      }
    }
  }

  /** A tick moves every train of every line exactly once, line by line and
      within a line train by train. */
  lemma OrderOfTurns(lines: seq<Line>)
    ensures forall n :: 0 <= n < |Order(lines)| ==>
              Order(lines)[n].0 < |lines| && Order(lines)[n].1 < |lines[Order(lines)[n].0].trains|
    ensures forall a, b :: 0 <= a < b < |Order(lines)| ==> Earlier(Order(lines)[a], Order(lines)[b])
    ensures forall i, j :: 0 <= i < |lines| && 0 <= j < |lines[i].trains| ==> (i, j) in Order(lines)
  {
    TurnsUpToOrdered(lines, |lines|);
    assert Order(lines) == TurnsUpTo(lines, |lines|);
  }

  /** Between states `trace[n]` and `trace[n + 1]` the train named by
      turn `n` of `order` takes its `TrainStep`. */
  ghost predicate TurnTaken(order: seq<(nat, nat)>, distanceOf: (nat, nat) -> real,
                            trace: seq<(seq<Station>, seq<Line>)>, n: nat) {
    && n < |order| && n + 1 < |trace|
    && TrainStep(trace[n].0, trace[n].1, order[n].0, order[n].1, distanceOf(order[n].0, order[n].1),
                 trace[n + 1].0, trace[n + 1].1)
  }

  /** `trace` holds the network states of a tick from (`stations0`,
      `lines0`) to (`stations`, `lines`), one between each two turns of
      `order`: each state is the one before it after the next turn's
      `TrainStep`. */
  ghost predicate Replayed(stations0: seq<Station>, lines0: seq<Line>, order: seq<(nat, nat)>,
                           distanceOf: (nat, nat) -> real, trace: seq<(seq<Station>, seq<Line>)>,
                           stations: seq<Station>, lines: seq<Line>) {
    && |trace| == |order| + 1
    && trace[0] == (stations0, lines0) && trace[|order|] == (stations, lines)
    && forall n: nat :: n < |order| ==> TurnTaken(order, distanceOf, trace, n)
  }

  /** A tick that has not moved any train yet. */
  lemma ReplayStart(stations0: seq<Station>, lines0: seq<Line>, distanceOf: (nat, nat) -> real)
    ensures Replayed(stations0, lines0, [], distanceOf, [(stations0, lines0)], stations0, lines0)
  {
  }

  /** One more turn extends the replay by the state after it. */
  lemma ReplayStep(stations0: seq<Station>, lines0: seq<Line>, order: seq<(nat, nat)>, distanceOf: (nat, nat) -> real,
                   trace: seq<(seq<Station>, seq<Line>)>, stations: seq<Station>, lines: seq<Line>,
                   l: nat, k: nat, stations': seq<Station>, lines': seq<Line>)
    requires Replayed(stations0, lines0, order, distanceOf, trace, stations, lines)
    requires TrainStep(stations, lines, l, k, distanceOf(l, k), stations', lines')
    ensures Replayed(stations0, lines0, order + [(l, k)], distanceOf, trace + [(stations', lines')], stations', lines')
  {
    var order', trace' := order + [(l, k)], trace + [(stations', lines')];
    forall n: nat | n < |order'|
      ensures TurnTaken(order', distanceOf, trace', n)
    {
      if n < |order| {
        assert TurnTaken(order, distanceOf, trace, n);
        assert order'[n] == order[n] && trace'[n] == trace[n] && trace'[n + 1] == trace[n + 1];
      } else {
        assert order'[n] == (l, k) && trace'[n] == (stations, lines) && trace'[n + 1] == (stations', lines');
      }
    }
  }

  /** Train `k` of line `l` takes the next turn of a tick, after the
      turns `order` and those of the trains before it on its line. */
  lemma ReplayTurn(stations0: seq<Station>, lines0: seq<Line>, order: seq<(nat, nat)>, distanceOf: (nat, nat) -> real,
                   trace: seq<(seq<Station>, seq<Line>)>, stations: seq<Station>, lines: seq<Line>,
                   l: nat, k: nat, stations': seq<Station>, lines': seq<Line>)
    requires Replayed(stations0, lines0, order + Turns(l, k), distanceOf, trace, stations, lines)
    requires TrainStep(stations, lines, l, k, distanceOf(l, k), stations', lines')
    ensures Replayed(stations0, lines0, order + Turns(l, k + 1), distanceOf,
                     trace + [(stations', lines')], stations', lines')
  {
    ReplayStep(stations0, lines0, order + Turns(l, k), distanceOf, trace, stations, lines, l, k, stations', lines');
    assert order + Turns(l, k + 1) == order + Turns(l, k) + [(l, k)];
  }

  /** A replay of `order` is one of `order` and none of line `l`'s trains. */
  lemma ReplayLineStart(stations0: seq<Station>, lines0: seq<Line>, order: seq<(nat, nat)>, distanceOf: (nat, nat) -> real,
                        trace: seq<(seq<Station>, seq<Line>)>, stations: seq<Station>, lines: seq<Line>, l: nat)
    requires Replayed(stations0, lines0, order, distanceOf, trace, stations, lines)
    ensures Replayed(stations0, lines0, order + Turns(l, 0), distanceOf, trace, stations, lines)
  {
    assert order + Turns(l, 0) == order;
  }

  /** A replay of every train of line `l` is a replay up to the next line. */
  lemma ReplayLineDone(stations0: seq<Station>, lines0: seq<Line>, distanceOf: (nat, nat) -> real,
                       trace: seq<(seq<Station>, seq<Line>)>, stations: seq<Station>, lines: seq<Line>, l: nat)
    requires l < |lines0|
    requires Replayed(stations0, lines0, TurnsUpTo(lines0, l) + Turns(l, |lines0[l].trains|), distanceOf,
                      trace, stations, lines)
    ensures Replayed(stations0, lines0, TurnsUpTo(lines0, l + 1), distanceOf, trace, stations, lines)
  {
  }

  /** `t` is train `t0` after one tick at `distance` from its target on
      a line with route `route`, among stations `stations`: it has moved
      as `Motion` says.  A train that does not arrive keeps its riders.  An
      arriving train has exchanged passengers at the station it arrived
      at: the riders staying aboard through the drop-off are still in
      front, and nobody aboard is bound for that station's shape or due to
      change there. */
  ghost predicate MovedTo(stations: seq<Station>, route: seq<nat>, t0: Train, distance: real, t: Train) {
    var n := |route|;
    && (Arrives(t0, n, distance) ==> 0 <= t0.targetIndex < n && route[t0.targetIndex] < |stations|)
    && t.(passengers := t0.passengers) == Motion(t0, n, distance)
    && (!Arrives(t0, n, distance) ==> t == Motion(t0, n, distance))
    && (Arrives(t0, n, distance) ==>
          var st := route[t0.targetIndex];
          var shape := stations[st].shape;
          var staying := Staying(t0.passengers, shape, st);
          && |staying| <= |t.passengers|
          && t.passengers[..|staying|] == staying
          && forall p :: p in t.passengers ==> p.destinationShape != shape && p.transferStation != Some(st))
  }

  /** The trains of `lines` are those of `lines0` with every train before
      train `k` of line `l`, in line order, moved once at its distance
      `distanceOf(line, train)`, and the others not yet moved. */
  ghost predicate MovedUpTo(stations0: seq<Station>, lines0: seq<Line>, lines: seq<Line>,
                            distanceOf: (nat, nat) -> real, l: nat, k: nat) {
    && |lines| == |lines0|
    && forall i, j :: 0 <= i < |lines0| && 0 <= j < |lines0[i].trains| && j < |lines[i].trains| ==>
         if i < l || (i == l && j < k)
         then MovedTo(stations0, lines0[i].stations, lines0[i].trains[j], distanceOf(i, j), lines[i].trains[j])
         else lines[i].trains[j] == lines0[i].trains[j]
  }

  /** Every train of `lines0` has moved once, at its distance. */
  ghost predicate AllMoved(stations0: seq<Station>, lines0: seq<Line>, lines: seq<Line>, distanceOf: (nat, nat) -> real) {
    && |lines| == |lines0|
    && forall i, j :: 0 <= i < |lines0| && 0 <= j < |lines0[i].trains| && j < |lines[i].trains| ==>
         MovedTo(stations0, lines0[i].stations, lines0[i].trains[j], distanceOf(i, j), lines[i].trains[j])
  }

  lemma MovedStep(stations0: seq<Station>, lines0: seq<Line>, lines: seq<Line>, distanceOf: (nat, nat) -> real,
                  l: nat, k: nat, r: Train)
    requires MovedUpTo(stations0, lines0, lines, distanceOf, l, k)
    requires l < |lines| && k < |lines[l].trains| && k < |lines0[l].trains|
    requires MovedTo(stations0, lines0[l].stations, lines0[l].trains[k], distanceOf(l, k), r)
    ensures MovedUpTo(stations0, lines0, lines[l := lines[l].(trains := lines[l].trains[k := r])], distanceOf, l, k + 1)
  {
    var lines' := lines[l := lines[l].(trains := lines[l].trains[k := r])];
    forall i, j | 0 <= i < |lines0| && 0 <= j < |lines0[i].trains| && j < |lines'[i].trains|
      ensures if i < l || (i == l && j < k + 1)
              then MovedTo(stations0, lines0[i].stations, lines0[i].trains[j], distanceOf(i, j), lines'[i].trains[j])
              else lines'[i].trains[j] == lines0[i].trains[j]
    {
      if i == l && j == k {
        assert lines'[i].trains[j] == r;
      }
    }
  }

  lemma MovedNextLine(stations0: seq<Station>, lines0: seq<Line>, lines: seq<Line>, distanceOf: (nat, nat) -> real,
                      l: nat)
    requires l < |lines0| && MovedUpTo(stations0, lines0, lines, distanceOf, l, |lines0[l].trains|)
    ensures MovedUpTo(stations0, lines0, lines, distanceOf, l + 1, 0)
  {
  }

  lemma MovedAll(stations0: seq<Station>, lines0: seq<Line>, lines: seq<Line>, distanceOf: (nat, nat) -> real)
    requires MovedUpTo(stations0, lines0, lines, distanceOf, |lines0|, 0)
    ensures AllMoved(stations0, lines0, lines, distanceOf)
  {
  }

  /** How many riders train `t0`, on a line with route `route`, delivers
      on a tick at `distance` from its target: those bound for the shape of
      the station it arrives at, and nobody when it does not arrive. */
  function DeliveredBy(stations: seq<Station>, route: seq<nat>, t0: Train, distance: real): nat {
    if Arrives(t0, |route|, distance) && 0 <= t0.targetIndex < |route| && route[t0.targetIndex] < |stations|
    then |Delivered(t0.passengers, stations[route[t0.targetIndex]].shape)|
    else 0
  }

  /** Riders delivered by the first `k` trains of line `l`. */
  function DeliveredOn(stations: seq<Station>, route: seq<nat>, trains: seq<Train>, l: nat,
                       distanceOf: (nat, nat) -> real, k: nat): nat
    requires k <= |trains|
  {
    if k == 0 then 0
    else DeliveredOn(stations, route, trains, l, distanceOf, k - 1)
         + DeliveredBy(stations, route, trains[k - 1], distanceOf(l, k - 1))
  }

  /** Riders delivered by the trains of the first `l` lines. */
  function DeliveredUpTo(stations: seq<Station>, lines: seq<Line>, distanceOf: (nat, nat) -> real, l: nat): nat
    requires l <= |lines|
  {
    if l == 0 then 0
    else DeliveredUpTo(stations, lines, distanceOf, l - 1)
         + DeliveredOn(stations, lines[l - 1].stations, lines[l - 1].trains, l - 1, distanceOf, |lines[l - 1].trains|)
  }

  lemma DeliveredNextLine(stations: seq<Station>, lines: seq<Line>, distanceOf: (nat, nat) -> real, l: nat, next: nat)
    requires l < |lines| && next == l + 1
    ensures DeliveredUpTo(stations, lines, distanceOf, next)
            == DeliveredUpTo(stations, lines, distanceOf, l)
               + DeliveredOn(stations, lines[l].stations, lines[l].trains, l, distanceOf, |lines[l].trains|)
  {
  }

  /** Riders delivered in a tick in which every train of `lines` moves at
      its distance `distanceOf(line, train)`. */
  function DeliveredAll(stations: seq<Station>, lines: seq<Line>, distanceOf: (nat, nat) -> real): nat {
    DeliveredUpTo(stations, lines, distanceOf, |lines|)
  }

  /** A movement and a delivery count judged against stations `stations1`
      hold against any stations of the same layout. */
  lemma MovedUnderLayout(stations0: seq<Station>, lines0: seq<Line>, stations1: seq<Station>, lines1: seq<Line>,
                         route: seq<nat>, t0: Train, distance: real, t: Train)
    requires SameLayout(stations0, lines0, stations1, lines1)
    requires MovedTo(stations1, route, t0, distance, t)
    ensures MovedTo(stations0, route, t0, distance, t)
    ensures DeliveredBy(stations1, route, t0, distance) == DeliveredBy(stations0, route, t0, distance)
  {
  }

  /** The state of a tick that started from (`stations0`, `lines0`)
      after the trains of the first `l` lines have moved and delivered
      `delivered` riders. */
  ghost predicate TickProgress(stations0: seq<Station>, lines0: seq<Line>, stations: seq<Station>, lines: seq<Line>,
                               distanceOf: (nat, nat) -> real, l: nat, delivered: nat) {
    && l <= |lines0|
    && SameLayout(stations0, lines0, stations, lines)
    && MovedUpTo(stations0, lines0, lines, distanceOf, l, 0)
    && delivered == DeliveredUpTo(stations0, lines0, distanceOf, l)
    && Population(stations, lines) + DeliveredUpTo(stations0, lines0, distanceOf, l) == Population(stations0, lines0)
  }

  /** Before any train has moved, nothing has changed and nobody is delivered. */
  lemma TickStart(stations0: seq<Station>, lines0: seq<Line>, distanceOf: (nat, nat) -> real)
    ensures TickProgress(stations0, lines0, stations0, lines0, distanceOf, 0, 0)
  {
  }

  /** A tick whose lines have all moved their trains is complete. */
  lemma TickDone(stations0: seq<Station>, lines0: seq<Line>, stations: seq<Station>, lines: seq<Line>,
                 distanceOf: (nat, nat) -> real, delivered: nat)
    requires TickProgress(stations0, lines0, stations, lines, distanceOf, |lines0|, delivered)
    ensures SameLayout(stations0, lines0, stations, lines)
    ensures AllMoved(stations0, lines0, lines, distanceOf)
    ensures delivered == DeliveredAll(stations0, lines0, distanceOf)
    ensures Population(stations, lines) + delivered == Population(stations0, lines0)
  {
    MovedAll(stations0, lines0, lines, distanceOf);
  }

  /** The state of a tick, as `TickProgress`, part-way through line `l`:
      its first `k` trains have moved too and delivered `delivered` more. */
  ghost predicate LineProgress(stations0: seq<Station>, lines0: seq<Line>, stations: seq<Station>, lines: seq<Line>,
                               distanceOf: (nat, nat) -> real, l: nat, k: nat, before: nat, delivered: nat) {
    && l < |lines0| && k <= |lines0[l].trains|
    && SameLayout(stations0, lines0, stations, lines)
    && MovedUpTo(stations0, lines0, lines, distanceOf, l, k)
    && before == DeliveredUpTo(stations0, lines0, distanceOf, l)
    && delivered == DeliveredOn(stations0, lines0[l].stations, lines0[l].trains, l, distanceOf, k)
    && Population(stations, lines) + DeliveredUpTo(stations0, lines0, distanceOf, l)
       + DeliveredOn(stations0, lines0[l].stations, lines0[l].trains, l, distanceOf, k) == Population(stations0, lines0)
  }

  /** A line whose trains have all moved completes the next step of the tick. */
  lemma LineDone(stations0: seq<Station>, lines0: seq<Line>, stations: seq<Station>, lines: seq<Line>,
                 distanceOf: (nat, nat) -> real, l: nat, before: nat, delivered: nat)
    requires l < |lines0|
    requires LineProgress(stations0, lines0, stations, lines, distanceOf, l, |lines0[l].trains|, before, delivered)
    ensures TickProgress(stations0, lines0, stations, lines, distanceOf, l + 1, before + delivered)
  {
    MovedNextLine(stations0, lines0, lines, distanceOf, l);
    DeliveredNextLine(stations0, lines0, distanceOf, l, l + 1);
  }

  /** The state of a tick part-way through line `l`, as `LineProgress`,
      with the network valid and the tick replayed through the turns
      `order` and those of the first `k` trains of line `l`. */
  ghost predicate InLine(stations0: seq<Station>, lines0: seq<Line>, distanceOf: (nat, nat) -> real,
                         order: seq<(nat, nat)>, trace: seq<(seq<Station>, seq<Line>)>,
                         stations: seq<Station>, lines: seq<Line>, l: nat, k: nat, before: nat, delivered: nat) {
    && Valid(stations, lines) && l < |lines|
    && LineProgress(stations0, lines0, stations, lines, distanceOf, l, k, before, delivered)
    && |lines[l].trains| == |lines0[l].trains|
    && Replayed(stations0, lines0, order + Turns(l, k), distanceOf, trace, stations, lines)
  }

  /** A line whose trains are still to move starts with none moved. */
  lemma LineStart(stations0: seq<Station>, lines0: seq<Line>, distanceOf: (nat, nat) -> real,
                  order: seq<(nat, nat)>, trace: seq<(seq<Station>, seq<Line>)>,
                  stations: seq<Station>, lines: seq<Line>, l: nat, before: nat)
    requires Valid(stations, lines) && l < |lines| && TickProgress(stations0, lines0, stations, lines, distanceOf, l, before)
    requires Replayed(stations0, lines0, order, distanceOf, trace, stations, lines)
    ensures InLine(stations0, lines0, distanceOf, order, trace, stations, lines, l, 0, before, 0)
    ensures |lines[l].trains| == |lines0[l].trains|
  {
    ReplayLineStart(stations0, lines0, order, distanceOf, trace, stations, lines, l);
  }

  class Network {
    var stations: seq<Station>
    var lines: seq<Line>

    ghost predicate Valid()
      reads this
    {
      Graph.Valid(stations, lines)
    }

    /** An empty network. */
    constructor()
      ensures stations == [] && lines == [] && Valid()
    {
      stations, lines := [], [];
    }

    /** A new station with no passengers and no lines. */
    method AddStation(x: int, y: int, shape: Shape) returns (s: nat)
      requires Valid()
      modifies this
      ensures s == |old(stations)| && stations == old(stations) + [Station(x, y, shape, [], [])]
      ensures lines == old(lines) && Valid()
    {
      ValidAddStation(stations, lines, Station(x, y, shape, [], []));
      s := |stations|;
      stations := stations + [Station(x, y, shape, [], [])];
    }

    /** A new passenger bound for `shape` joins the end of the queue at
        station `s`; it never wants the shape of the station it starts at. */
    method AddPassenger(s: nat, shape: Shape)
      requires Valid() && s < |stations| && shape != stations[s].shape
      modifies this
      ensures stations == old(stations)[s := old(stations)[s].(passengers := old(stations)[s].passengers + [Passenger(shape, None)])]
      ensures lines == old(lines) && Valid()
      ensures Population(stations, lines) == old(Population(stations, lines)) + 1
    {
      var queue := stations[s].passengers + [Passenger(shape, None)];
      ValidQueue(stations, lines, s, queue);
      QueueTotalUpdate(stations, s, stations[s].(passengers := queue));
      stations := stations[s := stations[s].(passengers := queue)];
    }

    /** A new line of colour `color`, with no stations and no trains. */
    method AddLine(color: Color) returns (l: nat)
      requires Valid()
      modifies this
      ensures l == |old(lines)| && lines == old(lines) + [Line([], color, [])]
      ensures stations == old(stations) && Valid()
    {
      l := |lines|;
      lines := lines + [Line([], color, [])];
      assert forall m :: 0 <= m < l ==> lines[m] == old(lines)[m];
    }

    /** `linkStation`: a station already on the line is ignored; otherwise
        it is appended to the route, the line is recorded at the station,
        and the line gets its train, starting at its first station, when the
        route reaches two stations. */
    method LinkStation(l: nat, s: nat)
      requires Valid() && l < |lines| && s < |stations|
      modifies this
      ensures old(s in lines[l].stations) ==> stations == old(stations) && lines == old(lines)
      ensures old(s !in lines[l].stations) ==>
                && lines == old(lines)[l := old(lines[l]).(
                     stations := old(lines[l].stations) + [s],
                     trains := old(lines[l].trains) +
                               if |old(lines[l].stations)| == 1 then [NewTrain(0, 2)] else [])]
                && stations == old(stations)[s := old(stations[s]).(lines := old(stations[s].lines) + [l])]
      ensures Valid()
    {
      var line := lines[l];
      if s in line.stations {
        return;
      }
      var route := line.stations + [s];
      var trains := line.trains + if |route| == 2 then [NewTrain(0, |route|)] else [];
      LinkKeepsValid(stations, lines, l, s);
      lines := lines[l := line.(stations := route, trains := trains)];
      stations := stations[s := stations[s].(lines := stations[s].lines + [l])];
    }

    /** `extendLine` on line `l`, which has at least one station: the line
        becomes `Extended(...)` and, when it grew, the new station records
        the line. */
    method ExtendLine(l: nat, newStation: nat, endStation: nat)
      requires Valid() && l < |lines| && newStation < |stations| && |lines[l].stations| > 0
      modifies this
      ensures lines == old(lines)[l := Extended(old(lines[l]), newStation, endStation)]
      ensures stations == if |lines[l].stations| == |old(lines[l].stations)| then old(stations)
                          else old(stations)[newStation := old(stations[newStation]).(
                                 lines := old(stations[newStation].lines) + [l])]
      ensures Valid()
    {
      var line := lines[l];
      var route := ExtendRoute(line.stations, newStation, endStation);
      if |route| == |line.stations| {
        return;
      }
      var trains := line.trains;
      if line.stations[0] == endStation {
        trains := ShiftTrains(trains);
      }
      assert line.(stations := route, trains := trains) == Extended(line, newStation, endStation);
      ExtendKeepsValid(stations, lines, l, newStation, endStation);
      lines := lines[l := line.(stations := route, trains := trains)];
      stations := stations[newStation := stations[newStation].(lines := stations[newStation].lines + [l])];
    }

    /** One tick of train `k` of line `l`, `distance` away from its target.
        A train that does not arrive only moves on its state machine; one
        that arrives exchanges passengers at the station it arrives at and
        reports how many it delivered. */
    method MoveTrain(l: nat, k: nat, distance: real) returns (delivered: nat)
      requires Valid() && l < |lines| && k < |lines[l].trains|
      modifies this
      ensures Valid()
      ensures SameLayout(old(stations), old(lines), stations, lines)
      ensures Population(stations, lines) + delivered == old(Population(stations, lines))
      ensures TrainStep(old(stations), old(lines), l, k, distance, stations, lines)
      ensures MovedTo(old(stations), old(lines[l].stations), old(lines[l].trains[k]), distance, lines[l].trains[k])
      ensures delivered == DeliveredBy(old(stations), old(lines[l].stations), old(lines[l].trains[k]), distance)
    {
      var line := lines[l];
      var t := line.trains[k];
      var n := |line.stations|;
      assert LineOk(line);
      assert t in line.trains;
      var r := Motion(t, n, distance);
      delivered := 0;
      if Arrives(t, n, distance) {
        var st := line.stations[r.currentIndex];
        var riders, queue;
        riders, queue, delivered :=
          HandlePassengers(stations, lines, line.stations, st, t.passengers, stations[st].passengers);
        r := r.(passengers := riders);
        ValidQueue(stations, lines, st, queue);
        SameLayoutQueue(stations, lines, st, queue);
        QueueTotalUpdate(stations, st, stations[st].(passengers := queue));
        stations := stations[st := stations[st].(passengers := queue)];
      }
      ValidTrain(stations, lines, l, k, r);
      SameLayoutTrain(stations, lines, l, k, r);
      SameLayoutTrans(old(stations), old(lines), stations, lines, stations, lines[l := line.(trains := line.trains[k := r])]);
      RiderTotalUpdate(line.trains, k, r);
      OnboardTotalUpdate(lines, l, line.(trains := line.trains[k := r]));
      lines := lines[l := line.(trains := line.trains[k := r])];
    }
  
    /** The train movement of a tick: every train of every line, in order,
        moves once; `distanceOf(l, k)` is the distance of train `k` of line
        `l` to its target.  Returns the number of passengers delivered. */
    method MoveTrains(distanceOf: (nat, nat) -> real) returns (delivered: nat, ghost trace: seq<(seq<Station>, seq<Line>)>)
      requires Valid()
      modifies this
      ensures Valid()
      ensures SameLayout(old(stations), old(lines), stations, lines)
      ensures AllMoved(old(stations), old(lines), lines, distanceOf)
      ensures Replayed(old(stations), old(lines), Order(old(lines)), distanceOf, trace, stations, lines)
      ensures delivered == DeliveredAll(old(stations), old(lines), distanceOf)
      ensures Population(stations, lines) + delivered == old(Population(stations, lines))
    {
      delivered := 0;
      ghost var (stations0, lines0) := (stations, lines);
      TickStart(stations0, lines0, distanceOf);
      trace := [(stations, lines)];
      ReplayStart(stations0, lines0, distanceOf);
      for l := 0 to |lines|
        invariant Valid() && TickProgress(stations0, lines0, stations, lines, distanceOf, l, delivered)
        invariant Replayed(stations0, lines0, TurnsUpTo(lines0, l), distanceOf, trace, stations, lines)
      {
        var d;
        d, trace := MoveLine(l, distanceOf, stations0, lines0, delivered, TurnsUpTo(lines0, l), trace);
        ReplayLineDone(stations0, lines0, distanceOf, trace, stations, lines, l);
        delivered := delivered + d;
      }
      TickDone(stations0, lines0, stations, lines, distanceOf, delivered);
    }

    /** The trains of line `l` move once each, in order, during a tick
        that started from (`stations0`, `lines0`) and has moved the trains
        of the lines before `l` in the turns `order`, which delivered
        `before` riders.  Returns the number delivered by this line. */
    method MoveLine(l: nat, distanceOf: (nat, nat) -> real, ghost stations0: seq<Station>, ghost lines0: seq<Line>,
                    ghost before: nat, ghost order: seq<(nat, nat)>, ghost trace: seq<(seq<Station>, seq<Line>)>)
      returns (delivered: nat, ghost trace': seq<(seq<Station>, seq<Line>)>)
      requires Valid() && l < |lines| && TickProgress(stations0, lines0, stations, lines, distanceOf, l, before)
      requires Replayed(stations0, lines0, order, distanceOf, trace, stations, lines)
      modifies this
      ensures Valid() && TickProgress(stations0, lines0, stations, lines, distanceOf, l + 1, before + delivered)
      ensures Replayed(stations0, lines0, order + Turns(l, |lines0[l].trains|), distanceOf, trace', stations, lines)
    {
      delivered := 0;
      trace' := trace;
      var m := |lines[l].trains|;
      LineStart(stations0, lines0, distanceOf, order, trace, stations, lines, l, before);
      for k := 0 to m
        invariant InLine(stations0, lines0, distanceOf, order, trace', stations, lines, l, k, before, delivered)
      {
        var d;
        d, trace' := MoveNext(l, k, distanceOf, stations0, lines0, before, delivered, order, trace');
        delivered := delivered + d;
      }
      LineDone(stations0, lines0, stations, lines, distanceOf, l, before, delivered);
    }

    /** Train `k` of line `l` moves once, during a tick that started from
        (`stations0`, `lines0`) and has moved the trains before it: the
        turns `order` and the trains before it on its line.  Returns the
        number it delivered. */
    method MoveNext(l: nat, k: nat, distanceOf: (nat, nat) -> real, ghost stations0: seq<Station>, ghost lines0: seq<Line>,
                    ghost before: nat, ghost sofar: nat, ghost order: seq<(nat, nat)>,
                    ghost trace: seq<(seq<Station>, seq<Line>)>)
      returns (delivered: nat, ghost trace': seq<(seq<Station>, seq<Line>)>)
      requires l < |lines0| && k < |lines0[l].trains|
      requires InLine(stations0, lines0, distanceOf, order, trace, stations, lines, l, k, before, sofar)
      modifies this
      ensures InLine(stations0, lines0, distanceOf, order, trace', stations, lines, l, k + 1, before, sofar + delivered)
      ensures delivered == DeliveredBy(stations0, lines0[l].stations, lines0[l].trains[k], distanceOf(l, k))
    {
      ghost var (s1, l1) := (stations, lines);
      assert l1[l].trains[k] == lines0[l].trains[k] && l1[l].stations == lines0[l].stations;
      delivered := MoveTrain(l, k, distanceOf(l, k));
      MovedUnderLayout(stations0, lines0, s1, l1, lines0[l].stations, lines0[l].trains[k],
                       distanceOf(l, k), lines[l].trains[k]);
      assert lines == l1[l := l1[l].(trains := l1[l].trains[k := lines[l].trains[k]])];
      MovedStep(stations0, lines0, l1, distanceOf, l, k, lines[l].trains[k]);
      SameLayoutTrans(stations0, lines0, s1, l1, stations, lines);
      ReplayTurn(stations0, lines0, order, distanceOf, trace, s1, l1, l, k, stations, lines);
      trace' := trace + [(stations, lines)];
    }
  }
}
