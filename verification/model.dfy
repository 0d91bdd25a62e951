/** The entities of the transit simulation.  Stations, lines and trains
    refer to each other by index into the network's arenas instead of by
    object reference. */
module Model {

  datatype Option<T> = None | Some(value: T)

  /** The shape of a station; a passenger travels to any station of its
      destination shape. */
  datatype Shape = Circle | Square | Triangle | Diamond | Pentagon

  /** A waiting or riding passenger.  `transferStation` is the index of the
      station where it must leave its current train, if any. */
  datatype Passenger = Passenger(destinationShape: Shape, transferStation: Option<nat>)

  /** A station: its position, shape, waiting queue (in arrival order) and
      the indices of the lines it belongs to. */
  datatype Station = Station(x: int, y: int, shape: Shape, passengers: seq<Passenger>, lines: seq<nat>)

  type Color = string

  /** A train shuttling along its line.  The floating-point position is not
      part of the model; the distance to the target station is supplied by
      the caller of the movement step. */
  datatype Train = Train(
    currentIndex: int,
    targetIndex: int,
    direction: int,
    waitTimer: nat,
    passengers: seq<Passenger>)

  /** A line: its route (station indices, in order), colour and trains. */
  datatype Line = Line(stations: seq<nat>, color: Color, trains: seq<Train>)

  /** Seats on a train. */
  const Capacity: nat := 6
  /** Ticks a train dwells at a station after arriving. */
  const DwellTicks: nat := 60
  /** Distance a train covers in one tick. */
  const Speed: real := 1.5
  /** Radius of a drawn station; new stations keep four radii of clearance. */
  const StationRadius: int := 20
}
