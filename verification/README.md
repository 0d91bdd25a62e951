# microMetro in Dafny

This project models the game logic of microMetro (`microMetro.py`), a small
Mini Metro clone. In the game, stations of five shapes appear on a map. The
player links stations into coloured lines. A train runs back and forth on
each line. Passengers spawn at stations, each bound for a shape. A train
delivers a passenger at the first station of that shape it reaches. A
passenger whose shape is not on the line rides to a transfer station found by
a breadth-first search over the network. The game ends when a station holds
more passengers than its capacity.

The model has six modules, one per concern:

- `Model` (`model.dfy`): the entities as values, plus the game constants:
  - shapes;
  - `Passenger` (destination shape and transfer station);
  - `Station`, `Line` and `Train`;
  - the train capacity 6, the dwell time of 60 ticks, the speed 1.5 and the station radius 20.
- `Graph` (`graph.dfy`):
  - the network invariant;
  - the adjacency the search follows;
  - line endpoints and extension;
  - `findExtendableLine`.
- `Pathfinder` (`pathfinder.dfy`): `findPathBFS`, with its queue loop, and `findTransfer`.
- `Trains` (`trains.dfy`):
  - the `Train` constructor;
  - `Train.move` as a function of the distance to the target;
  - `handlePassengers`, with its four loops: drop-off, transfer split, alighting and boarding.
- `Transit` (`network.dfy`): the class `Network`. It owns the station list and the line list and
  changes them in place:
  - adding stations, passengers and lines;
  - `Line.linkStation` and `Line.extendLine`;
  - moving one train, or every train.
- `Simulation` (`game.dfy`): the class `Game`, the application state of the game screen:
  - difficulty and city configuration;
  - the per-tick update (`game_onStep`) and the shared-track map it builds;
  - the click rule (`game_onMousePress`).

The Python program links objects by reference: a station lists its lines and
a line lists its stations. Here those references are indices into the
network's two lists. A station is identified by its index, so "the same
station" in the source (object identity) is equality of indices here. Every
change to the network keeps `Graph.Valid`:

- no station appears twice on a line;
- a line has at most one train, and only once it has two stations;
- every train's indices lie on its route, and the train moves one step from the station it left;
- a train carries at most 6 passengers;
- a rider's transfer station lies on the rider's line;
- waiting passengers never want the shape of the station they wait at, and carry no transfer station;
- the station-to-line references agree in both directions.

Randomness, positions and distances are parameters of the operations:

- `Step` receives each train's distance to its target as `distanceOf`. Train speed is 1.5.
- It receives the station picks as numbers taken modulo the length of the list they choose from.
- It receives the new station's position as `x` and `y`.
- `Click` receives the clicked station, or `None` for a click on empty space.

## Model

| member | source | states |
|---|---|---|
| Graph.IndexOf | microMetro.py:21 | `list.index`: the position of the first occurrence of the station on the route |
| Graph.RouteNeighborsLinked | microMetro.py:19-28 | on a route without repeats, the stations added as neighbours of `s` are exactly those consecutive with `s` on the route |
| Graph.AdjacentOnSomeLine | microMetro.py:19-28 | the search's neighbour relation is exactly "consecutive, in either order, on some line", in both directions |
| Graph.NeighborsInRange | microMetro.py:19-28 | every neighbour found is an existing station |
| Graph.Endpoints | microMetro.py:129-130 | two endpoints, which are exactly the first and the last station of the route; on a one-station route they coincide; no interior station of a repeat-free route is an endpoint |
| Graph.ExtendRoute | microMetro.py:117-125 | the route grows by exactly one station iff the new station is absent and the given station is an endpoint. Otherwise it is unchanged. Growth is at the head when the head is the given endpoint, else at the tail. Repeat-freedom is kept. Members are the old ones plus the new station |
| Graph.FirstExtendable | microMetro.py:688-697 | `None` iff no line in the list is extendable. Otherwise it returns the first extendable one in list order |
| Graph.FindExtendableLine | microMetro.py:685-699 | a result names a line of the chosen station whose endpoint is that station, with the other station not on it. It is the first such line, in list order, of the first station. Only when the first station has none is it the first such line of the second station. `None` iff neither station has such a line |
| Graph.ExtendableLineGrows | microMetro.py:685-699 | extending the line that `findExtendableLine` picks always adds the new station |
| Pathfinder.NeighborsOf | microMetro.py:19-28 | the neighbour loop computes exactly the neighbour set of the station |
| Pathfinder.Explore | microMetro.py:31-38 | one expansion either returns a shortest walk to the shape, or queues the unvisited neighbours and keeps the search invariant |
| Pathfinder.FindPathBFS | microMetro.py:9-40 | `[start]` when the start has the shape. A returned path is a repeat-free walk along lines to a station of the shape, and no walk is shorter. `None` iff no walk reaches the shape |
| Pathfinder.CommonLinesServe | microMetro.py:47-56 | the running intersection `currentLines` holds exactly the lines serving every station walked so far |
| Pathfinder.TransferFromSpec | microMetro.py:49-56 | the loop returns nothing iff some line serves the whole path. Otherwise it returns the station where the serving lines first run out |
| Pathfinder.TransferOnPathSpec | microMetro.py:44-57 | no transfer iff the path has fewer than three stations or one line serves all of it. Otherwise the transfer is the interior station where the common lines run out |
| Pathfinder.ShortestInterior | microMetro.py:13-14 | no station before the end of a shortest walk has the destination shape |
| Pathfinder.FindTransfer | microMetro.py:42-57 | the transfer is the transfer point of the search's path, or `None` when there is no path. A transfer is an interior station of that path: an existing station, not the start, not of the destination shape |
| Trains.NewTrain | microMetro.py:137-146 | a new train is at `startIndex`, heads forward, carries nobody and does not dwell. On a route with a next station it is a valid train. The target expression is evaluated as written |
| Trains.Motion | microMetro.py:148-175 | a dwelling train only counts down. A train on a route of fewer than two stations, or not yet close enough, keeps its indices. An arriving train takes its target as its station, turns at the ends, heads one station on and dwells 60 ticks. Validity and passengers are kept |
| Trains.Run | microMetro.py:148-175 | any number of `Motion` steps keeps the train's indices valid. `Motion` is only the index part of a tick, so the riders are untouched here; the exchange on arrival is `Transit.Network.MoveTrain`'s |
| Trains.Dwell | microMetro.py:149-151 | a train stays at its station for as many ticks as its timer shows |
| Trains.Select | microMetro.py:182-197 | a filtered list is no longer than the list it filters |
| Trains.SelectMembers | microMetro.py:182-197 | a passenger is kept by a filter iff it is in the list and passes the test |
| Trains.SelectPartition | microMetro.py:182-197 | the two halves of a filter together hold exactly the passengers of the list, with their destinations |
| Trains.Cleared | microMetro.py:199-201 | alighting transfer passengers lose their transfer station and nothing else |
| Trains.Serves | microMetro.py:208 | true iff some station of the route has the shape |
| Trains.Route | microMetro.py:206-220 | a passenger boards unchanged when the line serves the destination shape. It boards with a transfer station when the search's transfer point lies on the line. Otherwise it stays, and either no walk leads to the shape or the transfer point is missing or off the line |
| Trains.Consider | microMetro.py:205-220 | one boarding decision keeps the boarding invariant: order, capacity, routing, and no passenger lost |
| Trains.Board | microMetro.py:204-220 | boarding keeps the riders already aboard in front. Boarders and those left behind keep their queue order and split the queue between them. Each boarder is routed. A passenger is left behind only when the train was already full or the passenger is unroutable. It boards up to capacity. Destinations are conserved |
| Trains.DropOff | microMetro.py:181-188 | the riders kept are those not bound for the station's shape, in order. The count is the number who are |
| Trains.SplitTransfers | microMetro.py:189-197 | the riders changing at the station, and the rest, in order |
| Trains.Alight | microMetro.py:199-202 | the queue becomes the old queue followed by the cleared transfers |
| Trains.HandlePassengers | microMetro.py:178-222 | the count equals the riders bound for the shape. Staying riders stay in front, nobody aboard is bound for the station's shape, and the queue, with the alighting transfers appended, is split in order as `Board` states. Destinations and head counts are conserved across riders, queue and delivered. The roster stays within 6. No rider still changes here. Transfer stations stay on the line. The queue keeps the waiting-passenger invariant |
| Trains.BoardedOnLine | microMetro.py:214-218 | boarding with a transfer keeps every rider's transfer station on the line |
| Trains.NoneBoundFor | microMetro.py:178-222 | when nobody aboard and nobody queued is bound for a shape, nobody aboard after boarding is |
| Trains.NoneChangeHere | microMetro.py:189-197 | after the exchange no rider is still due to change at this station |
| Trains.QueueOk | microMetro.py:199-202 | the new queue wants no passenger of this station's shape and carries no transfer stations |
| Trains.ArrivalKeepsDests | microMetro.py:181-202 | drop-off, split and alighting lose no passenger |
| Transit.QueueTotalAppend | microMetro.py:510 | a new station adds its (empty) queue to the head count |
| Transit.ValidAddStation | microMetro.py:61-67 | a new station without passengers or lines keeps the invariant |
| Transit.AddToLine | microMetro.py:109-115 | adding a station to a line, with its back reference, keeps the invariant |
| Transit.LinkKeepsValid | microMetro.py:109-115 | linking a new station, with the train created at two stations, keeps the invariant |
| Transit.ExtendKeepsValid | microMetro.py:117-127 | an extension that grows the line keeps the invariant |
| Transit.Shifted | microMetro.py:121-123 | each train's current and target indices move up by one |
| Transit.ShiftedStations | microMetro.py:119-123 | after a head insertion the shifted trains are at, and head for, the same stations as before, and stay valid |
| Transit.AppendedStations | microMetro.py:124-125 | after a tail insertion the trains are where they were, and stay valid |
| Transit.ExtendedStops | microMetro.py:117-127 | extension keeps the colour, the trains' stations and passengers, and their validity. Indices move up by one exactly on a head insert |
| Transit.ShiftTrains | microMetro.py:121-123 | the re-indexing loop computes the shifted trains |
| Transit.Network.constructor | microMetro.py:406-407 | a game starts with no stations and no lines |
| Transit.Network.AddStation | microMetro.py:61-67 | a station with no passengers and no lines is appended. Its index is returned |
| Transit.Network.AddPassenger | microMetro.py:501 | the passenger, without a transfer station, joins the end of the queue. The head count grows by one |
| Transit.Network.AddLine | microMetro.py:103-107 | an empty line of the colour, without trains, is appended |
| Transit.Network.LinkStation | microMetro.py:109-115 | a station already on the line changes nothing. Otherwise it is appended and records the line. A train starting at index 0 appears exactly when the route reaches two stations |
| Transit.Network.ExtendLine | microMetro.py:117-127 | the line becomes its extension. The new station records the line exactly when the line grew |
| Transit.Network.MoveTrain | microMetro.py:148-175 | the train and the network take one `TrainStep`. The train's new current index, target index, direction and timer are one step of `Motion`. A train that does not arrive changes only itself. An arriving train exchanges passengers at its target as `handlePassengers` does. The riders bound for the station's shape get off, and their number is returned. Those due to change there join the back of the queue with their transfer cleared. The queue then boards in order while there is room and a route (`Boarding`). The staying riders stay in front, and nobody aboard is bound for the shape or due to change there. The head count drops by the number delivered. The layout is unchanged |
| Transit.OrderOfTurns | microMetro.py:491-493 | the turns of a tick name every train of every line exactly once, in line order and then train order |
| Transit.ReplayStep | microMetro.py:491-494 | one more `TrainStep` after a replayed prefix of a tick extends the replay by the state it reaches |
| Transit.Network.MoveTrains | microMetro.py:491-494 | the tick replays `TrainStep` for every train in `Order`, line by line and train by train (`Replayed`). Each train boards from the queue and the network as the trains before it left them, and alighting riders join that queue. Every train has also moved as `MovedTo` states, measured against the start of the tick. The count returned is `DeliveredAll`, the riders bound for the shapes of the stations the trains arrive at. The layout is kept. Passengers only leave by delivery |
| Transit.Network.MoveLine | microMetro.py:492-494 | the trains of one line each take their `TrainStep`, in order, after the lines before them (`Replayed` over their turns), and move as `MovedTo` states. The count returned is the line's share of `DeliveredAll` |
| Transit.Network.MoveNext | microMetro.py:493-494 | the next train of a line, after the ones before it, takes its `TrainStep` on the current network, which extends the replay by one turn. It moves as `MovedTo` states. Its count is `DeliveredBy`, what that train delivers at its station, and the head count drops by it |
| Simulation.SettingsFor | microMetro.py:413-437 | the spawn interval starts above its floor, which is positive. Three or more shapes, colours and stations are allowed. Easy uses exactly three shapes |
| Simulation.Opening | microMetro.py:442-460 | every city starts with an empty circle, square and triangle station |
| Simulation.OtherShapes | microMetro.py:498 | the candidate destinations are exactly the shapes of the stations of another shape |
| Simulation.Overlaps | microMetro.py:508 | true iff some station lies strictly within four radii of the point |
| Simulation.SegmentOf | microMetro.py:479 | a segment is the same pair of stations, whichever way the leg runs |
| Simulation.TallyLeg | microMetro.py:476-483 | recording one more leg keeps the map exact and free of repeats |
| Simulation.BuildSegmentMap | microMetro.py:474-486 | the map holds exactly the segments some line runs along. Each lists exactly those lines, each once |
| Simulation.Game.constructor | microMetro.py:405-460 | the difficulty's settings and the city's stations. No lines, no selection, all counters zero. The game invariant holds |
| Simulation.Game.CheckCrowding | microMetro.py:512-514 | the game is over exactly if it was, or some station exceeds the capacity |
| Simulation.Game.SpawnPassenger | microMetro.py:496-501 | the stations become `WithPassenger` of the old stations. The head count grows by at most one |
| Simulation.Game.SpawnStation | microMetro.py:503-510 | the stations become `WithStation` of the old stations. The head count is unchanged |
| Simulation.WithPassenger | microMetro.py:496-501 | only the drawn station changes, and only by one passenger at the end of its queue. The passenger appears iff some station has another shape. It is bound for such a shape and has no transfer station |
| Simulation.WithStation | microMetro.py:503-510 | a station is appended, or nothing changes. It is appended iff there are fewer stations than the limit and none crowds the point. The new station is empty, at the point, of one of the game's shapes, and within the limit |
| Simulation.PassengerSpawnTotal | microMetro.py:496-501 | a passenger spawn adds at most one waiting passenger |
| Simulation.WithStationTotal | microMetro.py:503-510 | a station spawn adds no waiting passenger |
| Simulation.Game.Spawned | microMetro.py:496-510 | off both schedules nothing changes. Off the station schedule the station count is kept. Off the passenger schedule the queues are kept. At most one station and one passenger appear |
| Simulation.Game.Advance | microMetro.py:468-486 | the clock advances. Every 180th tick the interval drops by one, down to its floor. The shared-track map is rebuilt |
| Simulation.Game.MoveAll | microMetro.py:491-494 | every train takes its `TrainStep` in `Order`, boarding and alighting as `MoveTrains` states (`Replayed`), and the layout is kept. The trip count grows by `DeliveredAll`. Trips plus passengers in the network stay constant while trains move |
| Simulation.Game.Spawn | microMetro.py:496-510 | the stations become `Spawned` of the old ones, on the clock's schedule. Lines do not change. At most one passenger and one station appear |
| Simulation.Game.Run | microMetro.py:491-514 | first every train takes its `TrainStep` in `Order`, with boarding and alighting, as `MoveTrains` states. The trip count grows by `DeliveredAll`, and trips plus passengers stay constant. Then the stations become `Spawned` of the moved stations. After that the game is over iff a station is overcrowded. Overall, trips plus passengers grow by at most one |
| Simulation.Game.Step | microMetro.py:462-514 | a finished game does not change. A paused game changes only the clock, the ramp and the shared-track map. A running game moves every train by its `TrainStep` in `Order`, with boarding and alighting, and adds `DeliveredAll` to the trip count. It then spawns on the new clock's schedule as `Run` states, and ends exactly on overcrowding. The station limit and the colour limit are kept |
| Simulation.Game.OpenLine | microMetro.py:540-546 | a new line of the next colour runs from the selected station to the clicked one. It has one train, and both stations record it |
| Simulation.Game.Connect | microMetro.py:535-548 | the network becomes `Joined`. The line `FindExtendableLine` picks is extended, and the added station records it, unless a new line is forced or none qualifies. In that case, while colours remain, a new line opens between the two stations with one train, and both stations record it. Otherwise nothing changes |
| Simulation.Game.Click | microMetro.py:516-552 | a finished game ignores clicks. Empty space and a repeated click clear the selection. A first click selects. A second, different station clears the selection and changes the network exactly as `Connect` does (`Joined`) |

## Left out

- Drawing, sound, screens, menus and the high score are not modelled. They do not affect the game state this model tracks. This includes every `draw`/`redrawAll` function, `gameOverSoundPlayed`, the menus and the theme music.
- Float geometry is not modelled. A train's pixel position and its step towards the target are left out. The caller supplies the distance to the target, and the model keeps only the arrival test (`distance < 1.5`). As a result, the model cannot show that a travelling train eventually arrives.
- Hit-testing of a click against station circles is not modelled. `Click` receives the clicked station.
- Random choices and the random station position are inputs. `x` and `y` are not limited to the window range.
- Station identity is an index, not an object reference. The segment key is an ordered pair of indices rather than an ordering by `id()`.
- The sort of each segment's line list by colour is not modelled. It only orders the drawing of parallel tracks, so `BuildSegmentMap` states the contents and not the order.
- Search order over a set of neighbours is not fixed. Python iterates over a `set`, whose order the program does not fix, so the model explores neighbours in any order. `FindPathBFS` therefore states which paths it may return (any shortest walk), not a particular one.
- Key handlers (`game_onKeyPress` pause and restart, `game_onKeyHold`/`game_onKeyRelease` for forcing a new line) are not modelled as operations. `paused` and `forceNewLine` are fields of `Game`, and a restart is a new `Game`.
- Trains.HandlePassengers: requires that the station's queue holds no passenger of the station's own shape and none with a transfer station. The network invariant guarantees this for every station, because passengers spawn only with other shapes and alighting clears the annotation.
- Trains.Motion, Trains.Run: these model only the index part of `Train.move` (dwell, arrival, turning). The call to `handlePassengers` on arrival is modelled by `Transit.Network.MoveTrain`, so the riders `Motion` and `Run` keep are a property of the index model, not of a train over several ticks.
- Transit.Network.ExtendLine: requires a non-empty route. `getEndpoints` would fail on an empty line, and every line the game keeps has at least two stations.
- Trains.NewTrain: the target index is `startIndex + (1 % n)`, as written. Trains are only created at index 0 of a two-station route, where this is 1, the intended next station.

## Notes

- A paused tick still advances the clock and the spawn-rate ramp and rebuilds the shared-track map, because these come before the pause check in `game_onStep`. The model follows the code: `Step` states that a paused tick changes only these.
- The game invariant `Game.Valid` keeps the number of stations within the difficulty's station limit and the number of lines within its colours. It also keeps the spawn interval at or above its floor.
