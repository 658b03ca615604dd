/** The parser, the movement engine and the two validators of the robots service
    (`RobotsUtils` in src/robots/robotsmap.utils.ts). */
module RobotsUtils {
  import opened Js
  import opened Constants
  import opened RobotFile
  import opened RobotMap

  // ===========================================================================
  // Text parser

  function GetRobotMapLines(fileContents: string): (robotsFile: RobotsFile)
    ensures |robotsFile.lines| >= 1
  {
    RobotsFile(SplitLines(fileContents))
  }

  /** `fields[i]` of a split line. Past the end JavaScript yields `undefined`, which
      is read here as its text "undefined": `parseInt` converts `undefined` to
      exactly that text (and finds no digit in it), and an orientation that is
      `undefined` neither turns nor moves and prints as "undefined". */
  function Field(fields: seq<string>, i: nat): string {
    if i < |fields| then fields[i] else "undefined"
  }

  /** The grid size from the first line. A missing second field is `undefined`
      in the source rather than NaN; both make every comparison false, so they
      behave alike. */
  function GetMapSize(robotsFile: RobotsFile): MapSize
    requires |robotsFile.lines| > MapSizePosition
  {
    var fields := SplitOn(robotsFile.lines[MapSizePosition], PositionSeparator);
    MapSize(ParseInt(Field(fields, 0)), ParseInt(Field(fields, 1)))
  }

  /** A spawn position from a line `x y orientation`: not lost, nothing explored. */
  function GetPosition(fileLine: string): (p: RobotState)
    ensures !p.isLost && p.exploredSurface == 0
  {
    var fields := SplitOn(fileLine, PositionSeparator);
    RobotState(ParseInt(Field(fields, 0)), ParseInt(Field(fields, 1)), Field(fields, 2), false, 0)
  }

  function GetSingleRobotInstructions(fileLine: string): seq<string> {
    Chars(fileLine)
  }

  /** The robots of the lines that follow the size line, paired strictly by
      position: a position line, then an instruction line. */
  function PairLines(rest: seq<string>): seq<RobotSpec>
  {
    if |rest| < 2 then []
    else [RobotSpec(GetPosition(rest[0]), GetSingleRobotInstructions(rest[1]))] + PairLines(rest[2..])
  }

  /** The robots of a file: line 0 is skipped, the rest is paired. */
  function ParseRobots(lines: seq<string>): seq<RobotSpec> {
    if lines == [] then [] else PairLines(lines[1..])
  }

  /** Robot `k` of the lines, as the loop of `getRobotInstructions` builds it. */
  function RobotOfLines(lines: seq<string>, k: nat): RobotSpec
    requires 2 * k + 2 < |lines|
  {
    RobotSpec(GetPosition(lines[2 * k + 1]), GetSingleRobotInstructions(lines[2 * k + 2]))
  }

  /** Appending a robot appends its value. */
  lemma SpecsSnoc(robots: seq<RobotInstruction>, robot: RobotInstruction)
    ensures Specs(robots + [robot]) == Specs(robots) + [RobotSpec(robot.position.Value(), robot.instructions)]
  {
    var grown := robots + [robot];
    assert forall k :: 0 <= k < |robots| ==> grown[k] == robots[k];
  }

  method GetRobotInstructions(robotsFile: RobotsFile) returns (robotsInstructions: seq<RobotInstruction>)
    ensures |robotsInstructions| == if robotsFile.lines == [] then 0 else (|robotsFile.lines| - 1) / 2
    ensures forall k :: 0 <= k < |robotsInstructions| ==>
      Specs(robotsInstructions)[k] == RobotOfLines(robotsFile.lines, k)
    ensures forall k :: 0 <= k < |robotsInstructions| ==> fresh(robotsInstructions[k].position)
    ensures DistinctPositions(robotsInstructions)
  {
    var lines := robotsFile.lines;
    ghost var count := if lines == [] then 0 else (|lines| - 1) / 2;
    ghost var expected := seq(count, k requires 0 <= k < count => RobotOfLines(lines, k));
    robotsInstructions := [];
    var position: Position? := null;
    var instructions: seq<string> := [];
    var haveInstructions := false;
    for i := 0 to |lines|
      invariant !haveInstructions
      invariant i == 0 ==> position == null && robotsInstructions == []
      invariant i >= 1 ==> i == 2 * |robotsInstructions| + 1 + (if position == null then 0 else 1)
      invariant position != null ==> fresh(position) && position.Value() == GetPosition(lines[i - 1])
      invariant |robotsInstructions| <= count
      invariant Specs(robotsInstructions) == expected[..|robotsInstructions|]
      invariant forall k :: 0 <= k < |robotsInstructions| ==> fresh(robotsInstructions[k].position)
      invariant position !in Spawns(robotsInstructions)
      invariant DistinctPositions(robotsInstructions)
    {
      var l := lines[i];
      if i != 0 { // the size line is skipped
        if position == null {
          position := new Position(GetPosition(l));
        } else if !haveInstructions {
          instructions, haveInstructions := GetSingleRobotInstructions(l), true;
        }
        // an instruction list is truthy even when empty
        if position != null && haveInstructions {
          SpecsSnoc(robotsInstructions, RobotInstruction(position, instructions));
          robotsInstructions := robotsInstructions + [RobotInstruction(position, instructions)];
          position, haveInstructions := null, false;
        }
      }
    }
  }

  method GetRobotMap(fileContents: string) returns (robotsMap: RobotsMap)
    ensures fresh(robotsMap)
    ensures var lines := GetRobotMapLines(fileContents).lines;
      robotsMap.mapSize == GetMapSize(RobotsFile(lines))
      && |robotsMap.robotInstructions| == (|lines| - 1) / 2
      && forall k :: 0 <= k < |robotsMap.robotInstructions| ==>
           Specs(robotsMap.robotInstructions)[k] == RobotOfLines(lines, k)
    ensures forall k :: 0 <= k < |robotsMap.robotInstructions| ==> fresh(robotsMap.robotInstructions[k].position)
    ensures DistinctPositions(robotsMap.robotInstructions)
    ensures robotsMap.exploredSurface == 0 && robotsMap.lostRobots == 0
  {
    var robotsFile := GetRobotMapLines(fileContents);
    var mapSize := GetMapSize(robotsFile);
    var robotInstructions := GetRobotInstructions(robotsFile);
    robotsMap := new RobotsMap(mapSize, robotInstructions, 0, 0);
  }

  // ===========================================================================
  // Turning and stepping

  /** The orientation after turning left ("L") or right (anything else); an
      orientation other than N, S, E and W is returned unchanged. */
  function Rotate(orientation: string, rotateTo: string): string {
    if orientation == "N" then (if rotateTo == "L" then "W" else "E")
    else if orientation == "S" then (if rotateTo == "L" then "E" else "W")
    else if orientation == "E" then (if rotateTo == "L" then "N" else "S")
    else if orientation == "W" then (if rotateTo == "L" then "S" else "N")
    else orientation
  }

  /** The position one cell ahead (a copy: the argument is left alone). */
  function MoveForward(position: RobotState): RobotState {
    if position.orientation == "N" then position.(y := Add(position.y, 1))
    else if position.orientation == "S" then position.(y := Add(position.y, -1))
    else if position.orientation == "E" then position.(x := Add(position.x, 1))
    else if position.orientation == "W" then position.(x := Add(position.x, -1))
    else position
  }

  /** Off the grid `[0, axisX] x [0, axisY]`, as the four comparisons of the
      source decide it (each false on NaN). */
  predicate OutOfBounds(p: RobotState, mapSize: MapSize) {
    Lt(mapSize.axisX, p.x) || Lt(mapSize.axisY, p.y) || Lt(p.x, Int(0)) || Lt(p.y, Int(0))
  }

  /** Some scent lies on the cell of `p` (orientation is not compared). */
  predicate Scented(scents: seq<Cell>, p: RobotState) {
    exists k :: 0 <= k < |scents| && Eq(scents[k].x, p.x) && Eq(scents[k].y, p.y)
  }

  /** The instruction makes `calculateNextPosition` return the moved copy rather
      than its (possibly updated) argument. */
  predicate HandsBackCopy(p: RobotState, instruction: string, mapSize: MapSize) {
    instruction == "F" && !OutOfBounds(MoveForward(p), mapSize)
  }

  /** The position after one instruction. A forward step off the grid leaves the
      robot where it is and marks it lost unless its current cell is scented. */
  function NextPosition(p: RobotState, instruction: string, mapSize: MapSize, scents: seq<Cell>): RobotState {
    if instruction == "R" || instruction == "L" then p.(orientation := Rotate(p.orientation, instruction))
    else if instruction == "F" then
      var moved := MoveForward(p);
      if OutOfBounds(moved, mapSize) then p.(isLost := !Scented(scents, p)) else moved
    else p
  }

  /** `calculateNextPosition`: turns and the lost flag are written into the
      argument object, which is returned; a move on the grid returns a new object
      and leaves the argument alone. */
  method CalculateNextPosition(position: Position, instruction: string, mapSize: MapSize, scentedPositions: seq<Position>)
    returns (next: Position)
    modifies position`orientation, position`isLost
    ensures next.Value() == NextPosition(old(position.Value()), instruction, mapSize, old(CellsOf(scentedPositions)))
    ensures next == position <==> !HandsBackCopy(old(position.Value()), instruction, mapSize)
    ensures next != position ==> fresh(next) && position.Value() == old(position.Value())
    ensures CellsOf(scentedPositions) == old(CellsOf(scentedPositions))
  {
    next := position;
    if instruction == "R" || instruction == "L" {
      position.orientation := Rotate(position.orientation, instruction);
    } else if instruction == "F" {
      var newPosition := new Position(MoveForward(position.Value()));
      if OutOfBounds(newPosition.Value(), mapSize) {
        var isPositionScented := Scented(CellsOf(scentedPositions), position.Value());
        position.isLost := !isPositionScented;
      } else {
        next := newPosition;
      }
    }
  }

  /** One pass of the loop of `calculateFinalPosition`: the next position, and
      the explored-surface update when its cell differs from the previous one.
      The update `e = e ? e++ : 1` stores the value of `e++`, which is `e` itself,
      so a non-zero counter stays as it is and only 0 becomes 1. The cells are
      compared with `!=`, which is true when either side is NaN. */
  function Step(p: RobotState, instruction: string, mapSize: MapSize, scents: seq<Cell>): RobotState {
    var next := NextPosition(p, instruction, mapSize, scents);
    if !Eq(next.x, p.x) || !Eq(next.y, p.y) then
      next.(exploredSurface := if next.exploredSurface != 0 then next.exploredSurface else 1)
    else next
  }

  /** The position after the instructions; once lost, the rest is ignored. */
  function FinalPosition(p: RobotState, instructions: seq<string>, mapSize: MapSize, scents: seq<Cell>): RobotState
    decreases |instructions|
  {
    if instructions == [] || p.isLost then p
    else FinalPosition(Step(p, instructions[0], mapSize, scents), instructions[1..], mapSize, scents)
  }

  /** What becomes of the caller's spawn object: the loop updates it in place
      until the first move on the grid hands back a copy. */
  function InPlacePart(p: RobotState, instructions: seq<string>, mapSize: MapSize, scents: seq<Cell>): RobotState
    decreases |instructions|
  {
    if instructions == [] || p.isLost || HandsBackCopy(p, instructions[0], mapSize) then p
    else InPlacePart(Step(p, instructions[0], mapSize, scents), instructions[1..], mapSize, scents)
  }

  method CalculateFinalPosition(initialPosition: Position, instructions: seq<string>, mapSize: MapSize,
                                scentedPositions: seq<Position>)
    returns (finalPosition: Position)
    modifies initialPosition`orientation, initialPosition`isLost, initialPosition`exploredSurface
    ensures finalPosition.Value()
      == FinalPosition(old(initialPosition.Value()), instructions, mapSize, old(CellsOf(scentedPositions)))
    ensures initialPosition.Value()
      == InPlacePart(old(initialPosition.Value()), instructions, mapSize, old(CellsOf(scentedPositions)))
    ensures finalPosition == initialPosition || fresh(finalPosition)
    ensures CellsOf(scentedPositions) == old(CellsOf(scentedPositions))
  {
    ghost var start := initialPosition.Value();
    ghost var scents := CellsOf(scentedPositions);
    finalPosition := initialPosition;
    var auxExploredSurfacePosition := initialPosition;
    for i := 0 to |instructions|
      invariant CellsOf(scentedPositions) == scents
      invariant auxExploredSurfacePosition == finalPosition
      invariant finalPosition == initialPosition || fresh(finalPosition)
      invariant FinalPosition(finalPosition.Value(), instructions[i..], mapSize, scents)
        == FinalPosition(start, instructions, mapSize, scents)
      invariant finalPosition == initialPosition ==>
        InPlacePart(finalPosition.Value(), instructions[i..], mapSize, scents)
        == InPlacePart(start, instructions, mapSize, scents)
      invariant finalPosition != initialPosition ==>
        initialPosition.Value() == InPlacePart(start, instructions, mapSize, scents)
    {
      if !finalPosition.isLost {
        finalPosition := CalculateNextPosition(finalPosition, instructions[i], mapSize, scentedPositions);
        if !Eq(finalPosition.x, auxExploredSurfacePosition.x) || !Eq(finalPosition.y, auxExploredSurfacePosition.y) {
          if finalPosition.exploredSurface != 0 {
            var postfixValue := finalPosition.exploredSurface;                 // the value of `e++`
            finalPosition.exploredSurface := finalPosition.exploredSurface + 1; // its side effect
            finalPosition.exploredSurface := postfixValue;                      // then the assignment
          } else {
            finalPosition.exploredSurface := 1;
          }
        }
        auxExploredSurfacePosition := finalPosition;
      }
    }
  }

  // ===========================================================================
  // Validators

  /** A grid bound within [-1, 50]. */
  predicate AxisInRange(a: Num) {
    Le(Int(-1), a) && Le(a, Int(MaxCoordinateValue))
  }

  predicate SpawnInside(p: RobotState, mapSize: MapSize) {
    Le(p.x, mapSize.axisX) && Le(p.y, mapSize.axisY)
  }

  /** The result of `allCordinatesAreValid`: the loop overwrites its flag robot
      by robot, so only the last robot's spawn is compared with the grid. */
  predicate CoordinatesValid(mapSize: MapSize, robots: seq<RobotSpec>) {
    AxisInRange(mapSize.axisX) && AxisInRange(mapSize.axisY)
    && (robots == [] || SpawnInside(robots[|robots| - 1].position, mapSize))
  }

  method AllCordinatesAreValid(robotsMap: RobotsMap) returns (valid: bool)
    ensures valid == CoordinatesValid(robotsMap.mapSize, Specs(robotsMap.robotInstructions))
  {
    var robots := robotsMap.robotInstructions;
    var mapSize := robotsMap.mapSize;
    var validCoordinates := true;
    for k := 0 to |robots|
      invariant validCoordinates == (k == 0 || SpawnInside(robots[k - 1].position.Value(), mapSize))
    {
      var p := robots[k].position;
      validCoordinates := Le(p.x, mapSize.axisX) && Le(p.y, mapSize.axisY);
    }
    valid := Le(Int(-1), mapSize.axisX) && Le(mapSize.axisX, Int(MaxCoordinateValue))
      && Le(Int(-1), mapSize.axisY) && Le(mapSize.axisY, Int(MaxCoordinateValue)) && validCoordinates;
  }

  predicate IsValidInstruction(instruction: string) {
    instruction in ValidInstructions
  }

  /** The flag after the inner loop over one robot's instructions: each
      instruction overwrites it, so the last one decides; none leaves it alone. */
  function InstructionLoopFlag(flag: bool, instructions: seq<string>): bool {
    if instructions == [] then flag else IsValidInstruction(instructions[|instructions| - 1])
  }

  /** The flag after one robot: the inner loop, then the length check against
      the literal 50 of the source. */
  function RobotInstructionsFlag(flag: bool, instructions: seq<string>): bool {
    InstructionLoopFlag(flag, instructions) && |instructions| <= 50
  }

  /** The result of `allInstructionsAreValid`: the flag threaded through the
      robots in order, starting from true. */
  function InstructionsFlag(robots: seq<RobotSpec>): bool {
    if robots == [] then true
    else RobotInstructionsFlag(InstructionsFlag(robots[..|robots| - 1]), robots[|robots| - 1].instructions)
  }

  method AllInstructionsAreValid(robotsMap: RobotsMap) returns (valid: bool)
    ensures valid == InstructionsFlag(Specs(robotsMap.robotInstructions))
  {
    var robots := robotsMap.robotInstructions;
    ghost var specs := Specs(robots);
    var validInstructions := true;
    for k := 0 to |robots|
      invariant validInstructions == InstructionsFlag(specs[..k])
    {
      var instructions := robots[k].instructions;
      ghost var before := validInstructions;
      for j := 0 to |instructions|
        invariant validInstructions == InstructionLoopFlag(before, instructions[..j])
      {
        validInstructions := instructions[j] in ValidInstructions;
      }
      assert instructions[..|instructions|] == instructions;
      validInstructions := validInstructions && |instructions| <= 50;
      assert specs[..k + 1][..k] == specs[..k];
    }
    assert specs[..|robots|] == specs;
    valid := validInstructions;
  }
}
