/** The orchestration of `RobotsService` (src/robots/robots.service.ts): the
    validation gate, the run of all robots in order with the scents they leave,
    the output text, and the pipeline that ties them together. */
module RobotsService {
  import opened Js
  import opened Constants
  import opened RobotFile
  import opened RobotMap
  import opened RobotsUtils
  import RobotsUtilsProperties

  // ===========================================================================
  // Validation gate

  /** The two rejections of `validateRobotsMap`, each with its message. */
  datatype ValidationError = InvalidCoordinates(message: string) | InvalidInstructions(message: string)

  /** Either the map passes, or a `BadRequestException` is thrown. */
  datatype Outcome = Pass | Fail(error: ValidationError)

  /** The coordinate message, with the maximum coordinate interpolated. */
  function CoordinatesMessage(): string {
    "Coordinates must be positive and have a maximum of " + IntToString(MaxCoordinateValue)
    + " and robots must be placed within the declared map!"
  }

  /** The instruction message: the array of valid instructions interpolated as
      its comma-joined text, and the limit 100 (the check itself uses 50). */
  function InstructionsMessage(): string {
    "Instructions must be " + Join(ValidInstructions, ",") + " and maximum length of "
    + IntToString(MaxInstructionsStringLength)
  }

  /** The decision of `validateRobotsMap`: coordinates are checked first, so a
      map that fails both checks is reported as a coordinate error. */
  function Validate(mapSize: MapSize, robots: seq<RobotSpec>): (outcome: Outcome)
    ensures outcome.Pass? <==> CoordinatesValid(mapSize, robots) && InstructionsFlag(robots)
    ensures !CoordinatesValid(mapSize, robots) ==> outcome == Fail(InvalidCoordinates(CoordinatesMessage()))
    ensures CoordinatesValid(mapSize, robots) && !InstructionsFlag(robots) ==>
      outcome == Fail(InvalidInstructions(InstructionsMessage()))
  {
    if !CoordinatesValid(mapSize, robots) then Fail(InvalidCoordinates(CoordinatesMessage()))
    else if !InstructionsFlag(robots) then Fail(InvalidInstructions(InstructionsMessage()))
    else Pass
  }

  /** `validateRobotsMap`: calls the two validators in turn; the thrown
      exception is the `Fail` outcome. */
  method ValidateRobotsMap(robotsMap: RobotsMap) returns (outcome: Outcome)
    ensures outcome == Validate(robotsMap.mapSize, Specs(robotsMap.robotInstructions))
  {
    var coordinates := AllCordinatesAreValid(robotsMap);
    if !coordinates {
      return Fail(InvalidCoordinates(CoordinatesMessage()));
    }
    var instructions := AllInstructionsAreValid(robotsMap);
    if !instructions {
      return Fail(InvalidInstructions(InstructionsMessage()));
    }
    return Pass;
  }

  // ===========================================================================
  // The run of all robots

  /** The scent list after the given final positions: the cells of the lost
      ones, in order. */
  function ScentsOf(outputs: seq<RobotState>): (scents: seq<Cell>)
    ensures |scents| <= |outputs|
  {
    if outputs == [] then []
    else
      var last := outputs[|outputs| - 1];
      ScentsOf(outputs[..|outputs| - 1]) + (if last.isLost then [CellOf(last)] else [])
  }

  /** The final positions of the robots, run one after the other: each robot
      sees the scents of the robots lost before it. */
  function Outputs(mapSize: MapSize, robots: seq<RobotSpec>): (outputs: seq<RobotState>)
    ensures |outputs| == |robots|
  {
    if robots == [] then []
    else
      var previous := Outputs(mapSize, robots[..|robots| - 1]);
      var r := robots[|robots| - 1];
      previous + [FinalPosition(r.position, r.instructions, mapSize, ScentsOf(previous))]
  }

  /** What the robots' own spawn objects hold after the run: robot `k`'s
      object ends as `InPlacePart` of its spawn, run against the scents of the
      robots before it. */
  function SpawnsAfter(mapSize: MapSize, robots: seq<RobotSpec>): (spawns: seq<RobotState>)
    ensures |spawns| == |robots|
  {
    seq(|robots|, k requires 0 <= k < |robots| =>
      InPlacePart(robots[k].position, robots[k].instructions, mapSize, ScentsOf(Outputs(mapSize, robots[..k]))))
  }

  /** The number of lost robots among the outputs. */
  function LostCount(outputs: seq<RobotState>): nat {
    if outputs == [] then 0
    else LostCount(outputs[..|outputs| - 1]) + (if outputs[|outputs| - 1].isLost then 1 else 0)
  }

  /** The sum of the outputs' explored-surface counters. */
  function SumExplored(outputs: seq<RobotState>): int {
    if outputs == [] then 0
    else SumExplored(outputs[..|outputs| - 1]) + outputs[|outputs| - 1].exploredSurface
  }

  lemma OutputsSnoc(mapSize: MapSize, robots: seq<RobotSpec>, k: nat)
    requires k < |robots|
    ensures Outputs(mapSize, robots[..k + 1])
      == Outputs(mapSize, robots[..k])
         + [FinalPosition(robots[k].position, robots[k].instructions, mapSize, ScentsOf(Outputs(mapSize, robots[..k])))]
  {
    assert robots[..k + 1][..k] == robots[..k];
  }

  lemma ScentsOfSnoc(outputs: seq<RobotState>, p: RobotState)
    ensures ScentsOf(outputs + [p]) == ScentsOf(outputs) + (if p.isLost then [CellOf(p)] else [])
    ensures LostCount(outputs + [p]) == LostCount(outputs) + (if p.isLost then 1 else 0)
    ensures SumExplored(outputs + [p]) == SumExplored(outputs) + p.exploredSurface
  {
    assert (outputs + [p])[..|outputs|] == outputs;
  }

  lemma CellsOfSnoc(positions: seq<Position>, p: Position)
    ensures CellsOf(positions + [p]) == CellsOf(positions) + [Cell(p.x, p.y)]
  {
    var grown := positions + [p];
    assert forall k :: 0 <= k < |positions| ==> grown[k] == positions[k];
  }

  /** The position objects hold the values, one for one. */
  ghost predicate Hold(positions: seq<Position>, values: seq<RobotState>)
    reads positions
  {
    |positions| == |values| && forall j :: 0 <= j < |positions| ==> positions[j].Value() == values[j]
  }

  lemma HoldFrom(positions: seq<Position>, values: seq<RobotState>, k: nat)
    requires k < |positions| == |values| && Hold(positions[k..], values[k..])
    ensures positions[k].Value() == values[k] && Hold(positions[k + 1..], values[k + 1..])
  {
    assert positions[k..][0] == positions[k] && values[k..][0] == values[k];
    var rest, restValues := positions[k + 1..], values[k + 1..];
    forall j | 0 <= j < |rest|
      ensures rest[j].Value() == restValues[j]
    {
      assert rest[j] == positions[k..][j + 1] && restValues[j] == values[k..][j + 1];
    }
  }

  lemma HoldSnoc(positions: seq<Position>, values: seq<RobotState>, p: Position, value: RobotState)
    requires Hold(positions, values) && p.Value() == value
    ensures Hold(positions + [p], values + [value])
  {
  }

  lemma PrefixSnoc<T>(s: seq<T>, k: nat)
    requires k < |s|
    ensures s[..k + 1] == s[..k] + [s[k]]
  {
  }

  /** No object of `a` is an object of `b`. */
  predicate Disjoint(a: seq<Position>, b: seq<Position>) {
    forall i, j :: 0 <= i < |a| && 0 <= j < |b| ==> a[i] != b[j]
  }

  lemma DisjointStep(a: seq<Position>, b: seq<Position>, p: Position)
    requires b != [] && Disjoint(a, b) && p !in b[1..]
    ensures Disjoint(a + [p], b[1..])
  {
  }

  lemma DistinctFrom(robots: seq<RobotInstruction>, k: nat)
    requires DistinctPositions(robots) && k < |robots|
    ensures robots[k].position !in Spawns(robots)[..k]
    ensures robots[k].position !in Spawns(robots)[k + 1..]
  {
  }

  /** The body of the `forEach` callback of `processRobotInstructions`, for
      robot `r`: runs it against the scents so far, pushes its final position,
      pushes that position onto the scents when lost, and adds its counter to
      the map's. `outputs` names what the earlier outputs hold, `earlier` the
      spawn objects of the robots that ran before, `later` those of the robots
      still to run. */
  method ProcessRobot(robotsMap: RobotsMap, mapSize: MapSize, r: RobotInstruction,
                      robotsMovementsOutput: seq<Position>, scentedPositions: seq<Position>,
                      ghost outputs: seq<RobotState>, ghost earlier: seq<Position>, ghost earlierValues: seq<RobotState>,
                      ghost later: seq<Position>, ghost laterValues: seq<RobotState>)
    returns (movements: seq<Position>, scents: seq<Position>)
    requires r.position !in robotsMovementsOutput && r.position !in earlier && r.position !in later
    requires Hold(robotsMovementsOutput, outputs) && Hold(earlier, earlierValues) && Hold(later, laterValues)
    requires CellsOf(scentedPositions) == ScentsOf(outputs) && |scentedPositions| == LostCount(outputs)
    modifies robotsMap`exploredSurface, r.position`orientation, r.position`isLost, r.position`exploredSurface
    ensures var finalPosition := FinalPosition(old(r.position.Value()), r.instructions, mapSize, ScentsOf(outputs));
      && Hold(movements, outputs + [finalPosition])
      && CellsOf(scents) == ScentsOf(outputs + [finalPosition])
      && |scents| == LostCount(outputs + [finalPosition])
      && robotsMap.exploredSurface == old(robotsMap.exploredSurface) + finalPosition.exploredSurface
    ensures r.position.Value() == InPlacePart(old(r.position.Value()), r.instructions, mapSize, ScentsOf(outputs))
    ensures Hold(earlier, earlierValues) && Hold(later, laterValues)
    ensures movements == robotsMovementsOutput + [movements[|robotsMovementsOutput|]]
    ensures movements[|robotsMovementsOutput|] == r.position || movements[|robotsMovementsOutput|] !in later
  {
    ghost var finalValue := FinalPosition(r.position.Value(), r.instructions, mapSize, ScentsOf(outputs));
    var finalPosition := CalculateFinalPosition(r.position, r.instructions, mapSize, scentedPositions);
    ScentsOfSnoc(outputs, finalValue);
    movements := robotsMovementsOutput + [finalPosition];
    scents := scentedPositions;
    if finalPosition.isLost {
      CellsOfSnoc(scentedPositions, finalPosition);
      scents := scentedPositions + [finalPosition];
    }
    robotsMap.exploredSurface := robotsMap.exploredSurface + finalPosition.exploredSurface;
  }

  /** Where the `forEach` stands after robot `k - 1`: the final positions and
      scents so far hold what `Outputs` gives for the first `k` robots, the
      map's counter has grown by their sum, the spawn objects of those robots
      hold what `SpawnsAfter` gives, and the robots still to run are untouched
      and not among the final positions. */
  ghost predicate Ran(robotsMap: RobotsMap, mapSize: MapSize, specs: seq<RobotSpec>, spawns: seq<Position>,
                      initial: seq<RobotState>, explored: int, k: nat,
                      robotsMovementsOutput: seq<Position>, scentedPositions: seq<Position>)
    reads robotsMap, robotsMovementsOutput, scentedPositions, spawns
  {
    && k <= |specs| == |spawns| == |initial|
    && var outputs := Outputs(mapSize, specs[..k]);
    && Hold(robotsMovementsOutput, outputs)
    && CellsOf(scentedPositions) == ScentsOf(outputs) && |scentedPositions| == LostCount(outputs)
    && robotsMap.exploredSurface == explored + SumExplored(outputs)
    && Hold(spawns[..k], SpawnsAfter(mapSize, specs)[..k])
    && Hold(spawns[k..], initial[k..])
    && Disjoint(robotsMovementsOutput, spawns[k..])
  }

  /** One pass of the `forEach`: robot `k` runs, and the run stands after it. */
  method RunRobot(robotsMap: RobotsMap, mapSize: MapSize, robots: seq<RobotInstruction>, k: nat,
                  robotsMovementsOutput: seq<Position>, scentedPositions: seq<Position>,
                  ghost specs: seq<RobotSpec>, ghost initial: seq<RobotState>, ghost explored: int)
    returns (movements: seq<Position>, scents: seq<Position>)
    requires k < |robots| && DistinctPositions(robots)
    requires Ran(robotsMap, mapSize, specs, Spawns(robots), initial, explored, k, robotsMovementsOutput, scentedPositions)
    requires specs[k] == RobotSpec(initial[k], robots[k].instructions)
    modifies robotsMap`exploredSurface, robots[k].position`orientation, robots[k].position`isLost,
      robots[k].position`exploredSurface
    ensures Ran(robotsMap, mapSize, specs, Spawns(robots), initial, explored, k + 1, movements, scents)
  {
    ghost var spawns := Spawns(robots);
    ghost var outputs := Outputs(mapSize, specs[..k]);
    var r := robots[k];
    HoldFrom(spawns, initial, k);
    DistinctFrom(robots, k);
    assert spawns[k..][0] == r.position;
    OutputsSnoc(mapSize, specs, k);
    ghost var spent := SpawnsAfter(mapSize, specs);
    assert spent[k] == InPlacePart(initial[k], r.instructions, mapSize, ScentsOf(outputs));
    movements, scents := ProcessRobot(robotsMap, mapSize, r, robotsMovementsOutput,
      scentedPositions, outputs, spawns[..k], spent[..k], spawns[k + 1..], initial[k + 1..]);
    assert spawns[k..][1..] == spawns[k + 1..];
    DisjointStep(robotsMovementsOutput, spawns[k..], movements[k]);
    assert r.position.Value() == spent[k];
    HoldSnoc(spawns[..k], spent[..k], r.position, spent[k]);
    PrefixSnoc(spawns, k);
    PrefixSnoc(spent, k);
  }

  /** The map once `processRobotInstructions` has run robots `specs` on it:
      the lost count is the number of lost robots, the explored counter has
      grown from `explored` by the robots' counters, and every spawn object
      holds what `SpawnsAfter` gives. */
  ghost predicate Finished(robotsMap: RobotsMap, specs: seq<RobotSpec>, explored: int)
    reads robotsMap, Spawns(robotsMap.robotInstructions)
  {
    var outputs := Outputs(robotsMap.mapSize, specs);
    && robotsMap.lostRobots == LostCount(outputs)
    && robotsMap.exploredSurface == explored + SumExplored(outputs)
    && Hold(Spawns(robotsMap.robotInstructions), SpawnsAfter(robotsMap.mapSize, specs))
  }

  /** The `forEach` of `processRobotInstructions`: runs the robots in order,
      each against the scent list so far, collecting their final positions and
      the lost ones among them, and adding each robot's explored counter to the
      map's. */
  method RunRobots(robotsMap: RobotsMap) returns (robotsMovementsOutput: seq<Position>, scentedPositions: seq<Position>)
    requires DistinctPositions(robotsMap.robotInstructions)
    modifies robotsMap`exploredSurface, Spawns(robotsMap.robotInstructions)`orientation, Spawns(robotsMap.robotInstructions)`isLost,
      Spawns(robotsMap.robotInstructions)`exploredSurface
    ensures var outputs := Outputs(robotsMap.mapSize, old(Specs(robotsMap.robotInstructions)));
      && Hold(robotsMovementsOutput, outputs)
      && CellsOf(scentedPositions) == ScentsOf(outputs) && |scentedPositions| == LostCount(outputs)
      && robotsMap.exploredSurface == old(robotsMap.exploredSurface) + SumExplored(outputs)
    ensures Hold(Spawns(robotsMap.robotInstructions), SpawnsAfter(robotsMap.mapSize, old(Specs(robotsMap.robotInstructions))))
  {
    var robots := robotsMap.robotInstructions;
    var mapSize := robotsMap.mapSize;
    ghost var specs := Specs(robots);
    assert specs == old(Specs(robotsMap.robotInstructions));
    ghost var initial := seq(|specs|, j requires 0 <= j < |specs| => specs[j].position);
    assert Spawns(robots)[0..] == Spawns(robots) && initial[0..] == initial && specs[..0] == [];
    robotsMovementsOutput := [];
    scentedPositions := [];
    for k := 0 to |robots|
      invariant Ran(robotsMap, mapSize, specs, Spawns(robots), initial, old(robotsMap.exploredSurface), k,
        robotsMovementsOutput, scentedPositions)
    {
      robotsMovementsOutput, scentedPositions := RunRobot(robotsMap, mapSize, robots, k,
        robotsMovementsOutput, scentedPositions, specs, initial, old(robotsMap.exploredSurface));
    }
    assert specs[..|robots|] == specs;
    assert Spawns(robots)[..|robots|] == Spawns(robots);
    assert SpawnsAfter(mapSize, specs)[..|robots|] == SpawnsAfter(mapSize, specs);
  }

  /** `processRobotInstructions`: the run of all robots, then the map's lost
      count set to the length of the scent list. */
  method ProcessRobotInstructions(robotsMap: RobotsMap) returns (robotsMovementsOutput: seq<Position>)
    requires DistinctPositions(robotsMap.robotInstructions)
    modifies robotsMap`exploredSurface, robotsMap`lostRobots, Spawns(robotsMap.robotInstructions)`orientation, Spawns(robotsMap.robotInstructions)`isLost,
      Spawns(robotsMap.robotInstructions)`exploredSurface
    ensures Hold(robotsMovementsOutput, Outputs(robotsMap.mapSize, old(Specs(robotsMap.robotInstructions))))
    ensures Finished(robotsMap, old(Specs(robotsMap.robotInstructions)), old(robotsMap.exploredSurface))
  {
    ghost var specs, explored := Specs(robotsMap.robotInstructions), robotsMap.exploredSurface;
    ghost var outputs := Outputs(robotsMap.mapSize, specs);
    var scentedPositions;
    robotsMovementsOutput, scentedPositions := RunRobots(robotsMap);
    assert |scentedPositions| == LostCount(outputs);
    assert Hold(Spawns(robotsMap.robotInstructions), SpawnsAfter(robotsMap.mapSize, specs));
    robotsMap.lostRobots := |scentedPositions|;
  }

  // ===========================================================================
  // Output text

  /** One output line: `${x} ${y} ${orientation}`, then " LOST" for a lost
      robot, then a line feed. */
  function FormatLine(p: RobotState): (line: string)
    ensures line != [] && line[|line| - 1] == '\n'
  {
    NumToString(p.x) + " " + NumToString(p.y) + " " + p.orientation + (if p.isLost then " LOST" else "") + "\n"
  }

  function FormatLines(outputs: seq<RobotState>): (lines: seq<string>)
    ensures |lines| == |outputs|
    ensures forall k :: 0 <= k < |outputs| ==> lines[k] == FormatLine(outputs[k])
  {
    seq(|outputs|, k requires 0 <= k < |outputs| => FormatLine(outputs[k]))
  }

  /** The response text: the output lines joined with nothing between them. */
  function FormatResult(outputs: seq<RobotState>): string {
    Concat(FormatLines(outputs))
  }

  // ===========================================================================
  // Pipeline

  /** What the service answers: the output text, or a bad request. */
  datatype Response = Output(text: string) | BadRequest(error: ValidationError)

  /** Validate, then run and format; a map that fails validation runs no robot. */
  function Process(mapSize: MapSize, robots: seq<RobotSpec>): (response: Response)
    ensures response.BadRequest? <==> Validate(mapSize, robots).Fail?
    ensures response.BadRequest? ==> response.error == Validate(mapSize, robots).error
  {
    match Validate(mapSize, robots)
    case Fail(error) => BadRequest(error)
    case Pass => Output(FormatResult(Outputs(mapSize, robots)))
  }

  /** The pipeline on a text: parse, then `Process`. */
  function ProcessText(fileContents: string): Response {
    var lines := GetRobotMapLines(fileContents).lines;
    Process(GetMapSize(RobotsFile(lines)), ParseRobots(lines))
  }

  /** The input of `processRobotsMap`: a text to parse or a map object. */
  datatype MapInput = Text(contents: string) | Given(robotsMap: RobotsMap)

  /** The output text read off the final position objects. */
  function MovementsText(movements: seq<Position>): string
    reads movements
  {
    Concat(seq(|movements|, k reads movements requires 0 <= k < |movements| => FormatLine(movements[k].Value())))
  }

  lemma MovementsTextOf(movements: seq<Position>, outputs: seq<RobotState>)
    requires Hold(movements, outputs)
    ensures MovementsText(movements) == FormatResult(outputs)
  {
    assert seq(|movements|, k reads movements requires 0 <= k < |movements| => FormatLine(movements[k].Value()))
      == FormatLines(outputs);
  }

  /** Lines 35-36 of `processRobotsMap`: runs all robots and formats their
      final positions. */
  method RunAndFormat(robotsMap: RobotsMap, ghost specs: seq<RobotSpec>, ghost explored: int) returns (text: string)
    requires DistinctPositions(robotsMap.robotInstructions)
    requires specs == Specs(robotsMap.robotInstructions) && explored == robotsMap.exploredSurface
    modifies robotsMap`exploredSurface, robotsMap`lostRobots, Spawns(robotsMap.robotInstructions)`orientation, Spawns(robotsMap.robotInstructions)`isLost,
      Spawns(robotsMap.robotInstructions)`exploredSurface
    ensures text == FormatResult(Outputs(robotsMap.mapSize, specs))
    ensures Finished(robotsMap, specs, explored)
  {
    var robotsMovementsOutput := ProcessRobotInstructions(robotsMap);
    MovementsTextOf(robotsMovementsOutput, Outputs(robotsMap.mapSize, specs));
    text := MovementsText(robotsMovementsOutput);
  }

  /** The part of `processRobotsMap` after the map is built: validate, run all
      robots, format their final positions. A rejected map is left as it was. */
  method ValidateAndRun(robotsMap: RobotsMap) returns (response: Response)
    requires DistinctPositions(robotsMap.robotInstructions)
    modifies robotsMap`exploredSurface, robotsMap`lostRobots, Spawns(robotsMap.robotInstructions)`orientation, Spawns(robotsMap.robotInstructions)`isLost,
      Spawns(robotsMap.robotInstructions)`exploredSurface
    ensures response == old(Process(robotsMap.mapSize, Specs(robotsMap.robotInstructions)))
    ensures response.BadRequest? ==> unchanged(robotsMap) && unchanged(Spawns(robotsMap.robotInstructions))
    ensures response.Output? ==>
      Finished(robotsMap, old(Specs(robotsMap.robotInstructions)), old(robotsMap.exploredSurface))
  {
    ghost var mapSize, specs, explored := robotsMap.mapSize, Specs(robotsMap.robotInstructions), robotsMap.exploredSurface;
    assert specs == old(Specs(robotsMap.robotInstructions)) && explored == old(robotsMap.exploredSurface);
    var outcome := ValidateRobotsMap(robotsMap);
    assert unchanged(robotsMap) && unchanged(Spawns(robotsMap.robotInstructions));
    assert Specs(robotsMap.robotInstructions) == specs;
    if outcome.Fail? {
      return BadRequest(outcome.error);
    }
    var text := RunAndFormat(robotsMap, specs, explored);
    response := Output(text);
  }

  /** `processRobotsMap` (without the statistics insert): a text input is
      parsed into a new map first; then the map is validated, run and
      formatted. */
  method ProcessRobotsMap(input: MapInput) returns (response: Response)
    requires input.Given? ==> DistinctPositions(input.robotsMap.robotInstructions)
    modifies (if input.Given? then {input.robotsMap} else {})`exploredSurface,
      (if input.Given? then {input.robotsMap} else {})`lostRobots
    modifies (if input.Given? then Spawns(input.robotsMap.robotInstructions) else [])`orientation,
      (if input.Given? then Spawns(input.robotsMap.robotInstructions) else [])`isLost,
      (if input.Given? then Spawns(input.robotsMap.robotInstructions) else [])`exploredSurface
    ensures input.Text? ==> response == ProcessText(input.contents)
    ensures input.Given? ==>
      response == old(Process(input.robotsMap.mapSize, Specs(input.robotsMap.robotInstructions)))
    ensures input.Given? && response.BadRequest? ==>
      unchanged(input.robotsMap) && unchanged(Spawns(input.robotsMap.robotInstructions))
    ensures input.Given? && response.Output? ==>
      Finished(input.robotsMap, old(Specs(input.robotsMap.robotInstructions)), old(input.robotsMap.exploredSurface))
  {
    if input.Text? {
      var robotsMap := GetRobotMap(input.contents);
      RobotsUtilsProperties.GetRobotMapRobots(input.contents, robotsMap.robotInstructions);
      response := ValidateAndRun(robotsMap);
    } else {
      response := ValidateAndRun(input.robotsMap);
    }
  }
}
