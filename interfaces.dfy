/** The limits of the robots service. */
module Constants {
  /** The largest coordinate a grid may declare. */
  const MaxCoordinateValue: int := 50
  /** The instruction-string limit that the validation message quotes. */
  const MaxInstructionsStringLength: int := 100
  /** The instructions a robot understands, in the order the message lists them. */
  const ValidInstructions: seq<string> := ["R", "L", "F"]
}

/** The raw file: its lines, and how a file is cut into lines and fields. */
module RobotFile {

  datatype RobotsFile = RobotsFile(lines: seq<string>)

  /** The separator between the fields of the size line and of a position line. */
  const PositionSeparator: char := ' '
  /** The index of the grid-size line. */
  const MapSizePosition: nat := 0

  predicate IsLineBreakChar(c: char) {
    c == '\r' || c == '\n'
  }

  /** `s.split(/\r\n|\r|\n/)`: the lines between line breaks, where a break is
      CR LF, a lone CR or a lone LF (CR LF is tried first), and empty lines are
      kept; the empty text is one empty line. */
  function SplitLines(s: string): (lines: seq<string>)
    ensures |lines| >= 1
  {
    if s == [] then [""]
    else if s[0] == '\r' && |s| >= 2 && s[1] == '\n' then [""] + SplitLines(s[2..])
    else if IsLineBreakChar(s[0]) then [""] + SplitLines(s[1..])
    else var rest := SplitLines(s[1..]); [[s[0]] + rest[0]] + rest[1..]
  }

  /** The number of line breaks in `s`, counted character by character: every LF,
      and every CR that no LF follows. */
  function LineBreaks(s: string): nat {
    if s == [] then 0
    else if s[0] == '\n' || (s[0] == '\r' && !(|s| >= 2 && s[1] == '\n')) then 1 + LineBreaks(s[1..])
    else LineBreaks(s[1..])
  }
}

/** The records the engine works on. A `Position` is an object that the engine
    updates in place; `RobotState` is its value. */
module RobotMap {
  import opened Js

  /** The grid's inclusive upper bounds. */
  datatype MapSize = MapSize(axisX: Num, axisY: Num)

  /** The value of a position: cell, orientation (any text; only "N", "E", "S"
      and "W" move or turn), whether the robot is lost, and its explored-surface
      counter. */
  datatype RobotState = RobotState(x: Num, y: Num, orientation: string, isLost: bool, exploredSurface: int)

  /** A grid cell, the part of a position that scents are compared on. */
  datatype Cell = Cell(x: Num, y: Num)

  function CellOf(s: RobotState): Cell {
    Cell(s.x, s.y)
  }

  class Position {
    var x: Num
    var y: Num
    var orientation: string
    var isLost: bool
    var exploredSurface: int

    /** A new object holding `s`: an object literal, or `Object.assign({}, p)`. */
    constructor (s: RobotState)
      ensures Value() == s
    {
      x, y, orientation, isLost, exploredSurface := s.x, s.y, s.orientation, s.isLost, s.exploredSurface;
    }

    function Value(): RobotState
      reads this
    {
      RobotState(x, y, orientation, isLost, exploredSurface)
    }
  }

  /** A robot of the map: its spawn position object and its instructions. */
  datatype RobotInstruction = RobotInstruction(position: Position, instructions: seq<string>)

  /** The value of a robot of the map. */
  datatype RobotSpec = RobotSpec(position: RobotState, instructions: seq<string>)

  /** The spawn position objects of the robots, in order. */
  function Spawns(robots: seq<RobotInstruction>): (spawns: seq<Position>)
    ensures |spawns| == |robots|
    ensures forall k :: 0 <= k < |robots| ==> spawns[k] == robots[k].position
  {
    seq(|robots|, k requires 0 <= k < |robots| => robots[k].position)
  }

  function Specs(robots: seq<RobotInstruction>): (specs: seq<RobotSpec>)
    reads Spawns(robots)
    ensures |specs| == |robots|
    ensures forall k :: 0 <= k < |robots| ==>
      specs[k] == RobotSpec(robots[k].position.Value(), robots[k].instructions)
  {
    seq(|robots|, k reads Spawns(robots) requires 0 <= k < |robots| =>
      RobotSpec(robots[k].position.Value(), robots[k].instructions))
  }

  function CellsOf(positions: seq<Position>): (cells: seq<Cell>)
    reads positions
    ensures |cells| == |positions|
    ensures forall k :: 0 <= k < |positions| ==> cells[k] == Cell(positions[k].x, positions[k].y)
  {
    seq(|positions|, k reads positions requires 0 <= k < |positions| => Cell(positions[k].x, positions[k].y))
  }

  /** No two robots of the map share a position object. */
  predicate DistinctPositions(robots: seq<RobotInstruction>) {
    forall i, j :: 0 <= i < j < |robots| ==> robots[i].position != robots[j].position
  }

  /** The map: grid size, robots, and the two run counters the service updates
      in place. */
  class RobotsMap {
    var mapSize: MapSize
    var robotInstructions: seq<RobotInstruction>
    var lostRobots: int
    var exploredSurface: int

    constructor (mapSize: MapSize, robotInstructions: seq<RobotInstruction>, lostRobots: int, exploredSurface: int)
      ensures this.mapSize == mapSize && this.robotInstructions == robotInstructions
      ensures this.lostRobots == lostRobots && this.exploredSurface == exploredSurface
    {
      this.mapSize := mapSize;
      this.robotInstructions := robotInstructions;
      this.lostRobots := lostRobots;
      this.exploredSurface := exploredSurface;
    }
  }
}
