/** What the parser, the movement engine and the validators of `RobotsUtils`
    guarantee, and where they deviate from what their names suggest. */
module RobotsUtilsProperties {
  import opened Js
  import opened Constants
  import opened RobotMap
  import opened RobotsUtils
  import JsProperties
  import RobotFileProperties

  // ===========================================================================
  // Parser

  /** The lines after the size line pair up two by two: robot `k` is spawned
      from line `2k+1` and instructed by line `2k+2`; a trailing unpaired line is
      dropped. */
  lemma {:induction false} PairLinesClosedForm(rest: seq<string>)
    ensures |PairLines(rest)| == |rest| / 2
    ensures forall k :: 0 <= k < |rest| / 2 ==>
      PairLines(rest)[k] == RobotSpec(GetPosition(rest[2 * k]), GetSingleRobotInstructions(rest[2 * k + 1]))
  {
    if |rest| >= 2 {
      var tail := rest[2..];
      PairLinesClosedForm(tail);
      var pairs := PairLines(rest);
      assert pairs == [RobotSpec(GetPosition(rest[0]), GetSingleRobotInstructions(rest[1]))] + PairLines(tail);
      forall k | 1 <= k < |rest| / 2
        ensures pairs[k] == RobotSpec(GetPosition(rest[2 * k]), GetSingleRobotInstructions(rest[2 * k + 1]))
      {
        assert pairs[k] == PairLines(tail)[k - 1];
        assert tail[2 * (k - 1)] == rest[2 * k] && tail[2 * (k - 1) + 1] == rest[2 * k + 1];
      }
    }
  }

  /** The robots of a file: floor((n-1)/2) of them, robot `k` being made of
      lines `2k+1` and `2k+2`, which is what `GetRobotInstructions` builds. */
  lemma ParseRobotsClosedForm(lines: seq<string>)
    ensures |ParseRobots(lines)| == if lines == [] then 0 else (|lines| - 1) / 2
    ensures forall k :: 0 <= k < |ParseRobots(lines)| ==> ParseRobots(lines)[k] == RobotOfLines(lines, k)
  {
    if lines != [] {
      var rest := lines[1..];
      PairLinesClosedForm(rest);
      forall k | 0 <= k < |rest| / 2
        ensures ParseRobots(lines)[k] == RobotOfLines(lines, k)
      {
        assert rest[2 * k] == lines[2 * k + 1] && rest[2 * k + 1] == lines[2 * k + 2];
      }
    }
  }

  /** The map a text parses into holds, as values, exactly the robots of
      `ParseRobots` on its lines. */
  lemma GetRobotMapRobots(fileContents: string, robots: seq<RobotInstruction>)
    requires |robots| == (|GetRobotMapLines(fileContents).lines| - 1) / 2
    requires forall k :: 0 <= k < |robots| ==> Specs(robots)[k] == RobotOfLines(GetRobotMapLines(fileContents).lines, k)
    ensures Specs(robots) == ParseRobots(GetRobotMapLines(fileContents).lines)
  {
    ParseRobotsClosedForm(GetRobotMapLines(fileContents).lines);
  }

  /** An instruction line splits into one-character instructions that join back
      into the line; a blank line gives no instruction. */
  lemma InstructionsOfLine(fileLine: string)
    ensures Concat(GetSingleRobotInstructions(fileLine)) == fileLine
    ensures |GetSingleRobotInstructions(fileLine)| == |fileLine|
    ensures fileLine == "" ==> GetSingleRobotInstructions(fileLine) == []
  {
    JsProperties.ConcatChars(fileLine);
  }

  /** A position line `x y o` written from numbers is read back as those numbers
      and that orientation, provided the orientation holds no space. */
  lemma GetPositionOfLine(x: Num, y: Num, orientation: string)
    requires forall k :: 0 <= k < |orientation| ==> orientation[k] != ' '
    ensures GetPosition(NumToString(x) + " " + NumToString(y) + " " + orientation)
      == RobotState(x, y, orientation, false, 0)
  {
    var parts := [NumToString(x), NumToString(y), orientation];
    assert NumToString(x) + " " + NumToString(y) + " " + orientation == Join(parts, " ") by {
      assert Join(parts[2..], " ") == orientation;
      assert Join(parts[1..], " ") == NumToString(y) + " " + orientation;
    }
    NumTextHasNoSpace(x);
    NumTextHasNoSpace(y);
    JsProperties.SplitOnJoin(parts, ' ');
    JsProperties.ParseIntOfNumToString(x);
    JsProperties.ParseIntOfNumToString(y);
  }

  /** The text of a number holds neither a field separator nor a line break. */
  lemma NumTextHasNoSpace(n: Num)
    ensures forall k :: 0 <= k < |NumToString(n)| ==>
      NumToString(n)[k] != ' ' && !RobotFile.IsLineBreakChar(NumToString(n)[k])
  {
    if n.Int? && n.v < 0 {
      var s := NatToString(-n.v);
      assert NumToString(n) == "-" + s;
      forall k | 0 <= k < |NumToString(n)|
        ensures NumToString(n)[k] != ' ' && !RobotFile.IsLineBreakChar(NumToString(n)[k])
      {
        if k > 0 { assert NumToString(n)[k] == s[k - 1]; }
      }
    }
  }

  /** A size line `${axisX} ${axisY}` is read back as those two numbers,
      whatever lines follow it. */
  lemma GetMapSizeOfLine(axisX: Num, axisY: Num, others: seq<string>)
    ensures GetMapSize(RobotFile.RobotsFile([NumToString(axisX) + " " + NumToString(axisY)] + others))
      == MapSize(axisX, axisY)
  {
    var parts := [NumToString(axisX), NumToString(axisY)];
    assert NumToString(axisX) + " " + NumToString(axisY) == Join(parts, " ") by {
      assert Join(parts[1..], " ") == NumToString(axisY);
    }
    NumTextHasNoSpace(axisX);
    NumTextHasNoSpace(axisY);
    JsProperties.SplitOnJoin(parts, ' ');
    JsProperties.ParseIntOfNumToString(axisX);
    JsProperties.ParseIntOfNumToString(axisY);
  }

  /** A text whose first line is `${axisX} ${axisY}` declares the grid
      `axisX` x `axisY`, whatever follows the first line break. */
  lemma GetMapSizeOfText(axisX: Num, axisY: Num, rest: string)
    ensures GetMapSize(GetRobotMapLines(NumToString(axisX) + " " + NumToString(axisY) + "\n" + rest))
      == MapSize(axisX, axisY)
  {
    var sizeLine := NumToString(axisX) + " " + NumToString(axisY);
    NumTextHasNoSpace(axisX);
    NumTextHasNoSpace(axisY);
    assert RobotFileProperties.NoBreaks(sizeLine) by {
      forall k | 0 <= k < |sizeLine|
        ensures !RobotFile.IsLineBreakChar(sizeLine[k])
      {
        if k < |NumToString(axisX)| {
          assert sizeLine[k] == NumToString(axisX)[k];
        } else if k > |NumToString(axisX)| {
          assert sizeLine[k] == NumToString(axisY)[k - |NumToString(axisX)| - 1];
        }
      }
    }
    assert sizeLine + "\n" + rest == sizeLine + ("\n" + rest);
    RobotFileProperties.SplitLinesPrefix(sizeLine, "\n" + rest);
    assert ("\n" + rest)[1..] == rest;
    var lines := RobotFile.SplitLines(sizeLine + "\n" + rest);
    assert lines == [sizeLine] + lines[1..] by {
      assert sizeLine + "" == sizeLine;
    }
    GetMapSizeOfLine(axisX, axisY, lines[1..]);
  }

  /** The size line `"5 3"` gives the grid 5 x 3; a line without a second field
      gives a height that no comparison accepts. */
  lemma GetMapSizeExamples()
    ensures GetMapSize(RobotFile.RobotsFile(["5 3"])) == MapSize(Int(5), Int(3))
    ensures GetMapSize(RobotFile.RobotsFile(["5"])).axisY == NaN
  {
    SplitFiveThree();
    SplitFive();
    UndefinedIsNaN();
  }

  lemma SplitFive()
    ensures SplitOn("5", ' ') == ["5"]
  {
    assert "5"[1..] == [];
    assert SplitOn([], ' ') == [""];
    assert ['5'] + "" == "5";
  }

  lemma SplitFiveThree()
    ensures SplitOn("5 3", ' ') == ["5", "3"]
  {
    JsProperties.SplitOnJoin(["5", "3"], ' ');
    assert Join(["5", "3"], " ") == "5 3";
  }

  /** A missing field reads as the text "undefined", which holds no digit. */
  lemma UndefinedIsNaN()
    ensures ParseInt("undefined") == NaN
  {
    assert DigitPrefixLength("undefined", 10) == 0;
  }

  // ===========================================================================
  // Rotation

  /** The four orientations, clockwise. */
  const Compass: seq<string> := ["N", "E", "S", "W"]

  /** Turning is a quarter turn on the compass: "L" goes one step
      counter-clockwise, anything else one step clockwise. */
  lemma RotateOnCompass(i: nat, rotateTo: string)
    requires i < 4
    ensures Rotate(Compass[i], rotateTo) == Compass[(i + (if rotateTo == "L" then 3 else 1)) % 4]
  {
  }

  /** An orientation off the compass (lower case, "undefined", the empty text)
      never turns. */
  lemma RotateUnknown(orientation: string, rotateTo: string)
    requires orientation !in Compass
    ensures Rotate(orientation, rotateTo) == orientation
  {
  }

  /** Every instruction other than "L" turns right. */
  lemma RotateOtherIsRight(orientation: string, rotateTo: string)
    requires rotateTo != "L"
    ensures Rotate(orientation, rotateTo) == Rotate(orientation, "R")
  {
  }

  /** Left and right undo each other, whatever the orientation. */
  lemma RotateInverse(orientation: string)
    ensures Rotate(Rotate(orientation, "L"), "R") == orientation
    ensures Rotate(Rotate(orientation, "R"), "L") == orientation
  {
    if orientation in Compass {
      var i :| 0 <= i < 4 && Compass[i] == orientation;
      RotateOnCompass(i, "L");
      RotateOnCompass((i + 3) % 4, "R");
      RotateOnCompass(i, "R");
      RotateOnCompass((i + 1) % 4, "L");
    }
  }

  /** Four identical turns come back to the start. */
  lemma RotateFourTimes(orientation: string, rotateTo: string)
    ensures Rotate(Rotate(Rotate(Rotate(orientation, rotateTo), rotateTo), rotateTo), rotateTo) == orientation
  {
    if rotateTo == "L" {
      FourTurns(orientation, "L");
    } else {
      var o1 := Rotate(orientation, rotateTo);
      var o2 := Rotate(o1, rotateTo);
      var o3 := Rotate(o2, rotateTo);
      RotateOtherIsRight(orientation, rotateTo);
      RotateOtherIsRight(o1, rotateTo);
      RotateOtherIsRight(o2, rotateTo);
      RotateOtherIsRight(o3, rotateTo);
      FourTurns(orientation, "R");
    }
  }

  lemma FourTurns(orientation: string, rotateTo: string)
    requires rotateTo == "L" || rotateTo == "R"
    ensures Rotate(Rotate(Rotate(Rotate(orientation, rotateTo), rotateTo), rotateTo), rotateTo) == orientation
  {
    if orientation == "N" || orientation == "E" || orientation == "S" || orientation == "W" {
    } else {
      RotateUnknown(orientation, rotateTo);
    }
  }

  /** Two right turns: the opposite orientation. */
  function TurnRound(orientation: string): string {
    Rotate(Rotate(orientation, "R"), "R")
  }

  lemma TurnRoundOnCompass(orientation: string)
    ensures DeltaX(TurnRound(orientation)) == -DeltaX(orientation)
    ensures DeltaY(TurnRound(orientation)) == -DeltaY(orientation)
    ensures TurnRound(TurnRound(orientation)) == orientation
  {
    RotateFourTimes(orientation, "R");
  }

  // ===========================================================================
  // Forward step

  /** The displacement of one step forward. */
  function DeltaX(orientation: string): int {
    if orientation == "E" then 1 else if orientation == "W" then -1 else 0
  }

  function DeltaY(orientation: string): int {
    if orientation == "N" then 1 else if orientation == "S" then -1 else 0
  }

  /** A step forward adds the displacement of the orientation: exactly one
      coordinate moves, by one, when the orientation is on the compass, and
      nothing moves otherwise; orientation, lost flag and counter stay. */
  lemma MoveForwardDisplacement(p: RobotState)
    ensures MoveForward(p) == p.(x := if DeltaX(p.orientation) == 0 then p.x else Add(p.x, DeltaX(p.orientation)),
                                 y := if DeltaY(p.orientation) == 0 then p.y else Add(p.y, DeltaY(p.orientation)))
    ensures p.orientation in Compass <==> (DeltaX(p.orientation) == 0) != (DeltaY(p.orientation) == 0)
    ensures p.orientation !in Compass ==> MoveForward(p) == p
  {
  }

  /** Stepping forward, turning round, stepping forward and turning round again
      leaves the robot where it began. */
  lemma MoveForwardTurnRoundBack(p: RobotState)
    ensures var ahead := MoveForward(p);
      var back := MoveForward(ahead.(orientation := TurnRound(ahead.orientation)));
      back.(orientation := TurnRound(back.orientation)) == p
  {
    var ahead := MoveForward(p);
    MoveForwardDisplacement(p);
    TurnRoundOnCompass(p.orientation);
    var turned := ahead.(orientation := TurnRound(ahead.orientation));
    MoveForwardDisplacement(turned);
  }

  // ===========================================================================
  // One instruction

  /** The cells of the grid, as the four comparisons of `calculateNextPosition`
      accept them. */
  predicate OnGrid(p: RobotState, mapSize: MapSize) {
    Le(Int(0), p.x) && Le(p.x, mapSize.axisX) && Le(Int(0), p.y) && Le(p.y, mapSize.axisY)
  }

  /** "F": off the grid, the robot stays on its cell with its orientation and is
      lost exactly when no scent lies on that cell; on the grid it moves. Turns
      touch nothing but the orientation; any other instruction changes nothing. */
  lemma NextPositionCases(p: RobotState, instruction: string, mapSize: MapSize, scents: seq<Cell>)
    ensures var next := NextPosition(p, instruction, mapSize, scents);
      && (instruction == "F" && OutOfBounds(MoveForward(p), mapSize) ==>
            next.x == p.x && next.y == p.y && next.orientation == p.orientation
            && next.exploredSurface == p.exploredSurface
            && (next.isLost <==> !Scented(scents, p)))
      && (instruction == "F" && !OutOfBounds(MoveForward(p), mapSize) ==> next == MoveForward(p))
      && (instruction == "L" || instruction == "R" ==> next == p.(orientation := Rotate(p.orientation, instruction)))
      && (instruction !in ValidInstructions ==> next == p)
  {
  }

  /** A scent saves a robot: on a scented cell no instruction makes it lost. */
  lemma ScentProtects(p: RobotState, instruction: string, mapSize: MapSize, scents: seq<Cell>)
    requires !p.isLost && Scented(scents, p)
    ensures !NextPosition(p, instruction, mapSize, scents).isLost
  {
  }

  /** A robot on the grid stays on the grid: it moves only onto accepted cells
      and, when it is lost, stays on the cell it fell from. */
  lemma NextPositionOnGrid(p: RobotState, instruction: string, mapSize: MapSize, scents: seq<Cell>)
    requires OnGrid(p, mapSize)
    ensures OnGrid(NextPosition(p, instruction, mapSize, scents), mapSize)
  {
    if instruction == "F" && !OutOfBounds(MoveForward(p), mapSize) {
      MoveForwardDisplacement(p);
    }
  }

  /** The three cases of the unit tests on a 2 x 2 grid. */
  lemma NextPositionExamples()
    ensures NextPosition(RobotState(Int(1), Int(2), "N", false, 0), "F", MapSize(Int(2), Int(2)), [Cell(Int(1), Int(2))])
      == RobotState(Int(1), Int(2), "N", false, 0)
    ensures NextPosition(RobotState(Int(0), Int(0), "S", false, 0), "F", MapSize(Int(2), Int(2)), [])
      == RobotState(Int(0), Int(0), "S", true, 0)
    ensures NextPosition(RobotState(Int(0), Int(0), "N", false, 0), "F", MapSize(Int(2), Int(2)), [])
      == RobotState(Int(0), Int(1), "N", false, 0)
  {
    assert Scented([Cell(Int(1), Int(2))], RobotState(Int(1), Int(2), "N", false, 0)) by {
      var scents := [Cell(Int(1), Int(2))];
      assert Eq(scents[0].x, Int(1)) && Eq(scents[0].y, Int(2));
    }
  }

  // ===========================================================================
  // A robot's run

  /** Running `a` then `b` is running `a + b`. */
  lemma {:induction false} FinalPositionAppend(p: RobotState, a: seq<string>, b: seq<string>, mapSize: MapSize, scents: seq<Cell>)
    ensures FinalPosition(p, a + b, mapSize, scents) == FinalPosition(FinalPosition(p, a, mapSize, scents), b, mapSize, scents)
    decreases |a|
  {
    if a != [] && !p.isLost {
      assert (a + b)[1..] == a[1..] + b;
      FinalPositionAppend(Step(p, a[0], mapSize, scents), a[1..], b, mapSize, scents);
    } else if a == [] {
      assert a + b == b;
    } else {
      FinalPositionLost(p, b, mapSize, scents);
    }
  }

  /** A lost robot ignores every instruction. */
  lemma FinalPositionLost(p: RobotState, instructions: seq<string>, mapSize: MapSize, scents: seq<Cell>)
    requires p.isLost
    ensures FinalPosition(p, instructions, mapSize, scents) == p
  {
  }

  /** Once a run has left a robot lost, nothing that follows moves it. */
  lemma LostIsFinal(p: RobotState, a: seq<string>, b: seq<string>, mapSize: MapSize, scents: seq<Cell>)
    requires FinalPosition(p, a, mapSize, scents).isLost
    ensures FinalPosition(p, a + b, mapSize, scents) == FinalPosition(p, a, mapSize, scents)
  {
    FinalPositionAppend(p, a, b, mapSize, scents);
    FinalPositionLost(FinalPosition(p, a, mapSize, scents), b, mapSize, scents);
  }

  /** A robot spawned on the grid ends on the grid. */
  lemma {:induction false} FinalPositionOnGrid(p: RobotState, instructions: seq<string>, mapSize: MapSize, scents: seq<Cell>)
    requires OnGrid(p, mapSize)
    ensures OnGrid(FinalPosition(p, instructions, mapSize, scents), mapSize)
    decreases |instructions|
  {
    if instructions != [] && !p.isLost {
      NextPositionOnGrid(p, instructions[0], mapSize, scents);
      FinalPositionOnGrid(Step(p, instructions[0], mapSize, scents), instructions[1..], mapSize, scents);
    }
  }

  /** A robot gets lost only from an unscented cell, by a step off the grid
      from the cell it ends on. */
  lemma {:induction false} LostOnlyFromUnscentedCell(p: RobotState, instructions: seq<string>, mapSize: MapSize, scents: seq<Cell>)
    requires !p.isLost
    ensures var q := FinalPosition(p, instructions, mapSize, scents);
      q.isLost ==> !Scented(scents, q) && OutOfBounds(MoveForward(q.(isLost := false)), mapSize)
    decreases |instructions|
  {
    if instructions != [] {
      var next := Step(p, instructions[0], mapSize, scents);
      if next.isLost {
        assert FinalPosition(p, instructions, mapSize, scents) == next;
        assert next.(isLost := false) == p.(exploredSurface := next.exploredSurface);
        assert MoveForward(next.(isLost := false)).x == MoveForward(p).x;
        assert MoveForward(next.(isLost := false)).y == MoveForward(p).y;
      } else {
        LostOnlyFromUnscentedCell(next, instructions[1..], mapSize, scents);
      }
    }
  }

  /** The number of instructions, before the robot is lost, after which its cell
      differs (by `!=`) from the cell before. */
  function CellChanges(p: RobotState, instructions: seq<string>, mapSize: MapSize, scents: seq<Cell>): nat
    decreases |instructions|
  {
    if instructions == [] || p.isLost then 0
    else
      var next := NextPosition(p, instructions[0], mapSize, scents);
      (if !Eq(next.x, p.x) || !Eq(next.y, p.y) then 1 else 0)
      + CellChanges(Step(p, instructions[0], mapSize, scents), instructions[1..], mapSize, scents)
  }

  /** The explored-surface counter does not count: a counter at 0 becomes 1 at
      the first change of cell and stays there, and a non-zero counter never
      changes, however many cells the robot visits. */
  lemma {:induction false} ExploredSurfaceSaturates(p: RobotState, instructions: seq<string>, mapSize: MapSize, scents: seq<Cell>)
    ensures FinalPosition(p, instructions, mapSize, scents).exploredSurface
      == if CellChanges(p, instructions, mapSize, scents) == 0 then p.exploredSurface
         else if p.exploredSurface != 0 then p.exploredSurface else 1
    decreases |instructions|
  {
    if instructions != [] && !p.isLost {
      ExploredSurfaceSaturates(Step(p, instructions[0], mapSize, scents), instructions[1..], mapSize, scents);
    }
  }

  /** From a fresh spawn the counter ends at 0 or 1, and at 1 exactly when the
      robot changed cell at least once. */
  lemma ExploredSurfaceAtMostOne(p: RobotState, instructions: seq<string>, mapSize: MapSize, scents: seq<Cell>)
    requires p.exploredSurface == 0
    ensures var e := FinalPosition(p, instructions, mapSize, scents).exploredSurface;
      0 <= e <= 1 && (e == 1 <==> CellChanges(p, instructions, mapSize, scents) > 0)
  {
    ExploredSurfaceSaturates(p, instructions, mapSize, scents);
  }

  /** A robot that walks three cells still reports one explored cell. */
  lemma ExploredSurfaceExample()
    ensures FinalPosition(RobotState(Int(0), Int(0), "N", false, 0), ["F", "F", "F"], MapSize(Int(5), Int(5)), [])
      == RobotState(Int(0), Int(3), "N", false, 1)
  {
    var m := MapSize(Int(5), Int(5));
    var p0 := RobotState(Int(0), Int(0), "N", false, 0);
    var p1 := RobotState(Int(0), Int(1), "N", false, 1);
    var p2 := RobotState(Int(0), Int(2), "N", false, 1);
    assert Step(p0, "F", m, []) == p1;
    assert Step(p1, "F", m, []) == p2;
    assert ["F", "F", "F"][1..] == ["F", "F"];
    assert ["F", "F"][1..] == ["F"];
  }

  /** The caller's spawn object keeps its cell: only its orientation, lost flag
      and counter are ever written. */
  lemma {:induction false} InPlacePartKeepsCell(p: RobotState, instructions: seq<string>, mapSize: MapSize, scents: seq<Cell>)
    ensures InPlacePart(p, instructions, mapSize, scents).x == p.x
    ensures InPlacePart(p, instructions, mapSize, scents).y == p.y
    decreases |instructions|
  {
    if instructions != [] && !p.isLost && !HandsBackCopy(p, instructions[0], mapSize) {
      InPlacePartKeepsCell(Step(p, instructions[0], mapSize, scents), instructions[1..], mapSize, scents);
    }
  }

  /** While no step moves the robot, the caller's object is the robot itself. */
  lemma {:induction false} InPlacePartWithoutMoves(p: RobotState, instructions: seq<string>, mapSize: MapSize, scents: seq<Cell>)
    requires forall k :: 0 <= k < |instructions| ==> instructions[k] != "F"
    ensures InPlacePart(p, instructions, mapSize, scents) == FinalPosition(p, instructions, mapSize, scents)
    decreases |instructions|
  {
    if instructions != [] && !p.isLost {
      assert instructions[0] != "F";
      InPlacePartWithoutMoves(Step(p, instructions[0], mapSize, scents), instructions[1..], mapSize, scents);
    }
  }

  // ===========================================================================
  // Validators

  /** Every robot's spawn inside the grid: what the coordinate check is named
      after. */
  predicate AllSpawnsInside(mapSize: MapSize, robots: seq<RobotSpec>) {
    forall k :: 0 <= k < |robots| ==> SpawnInside(robots[k].position, mapSize)
  }

  /** Checking all spawns would reject no map that the check accepts... */
  lemma AllSpawnsInsideImpliesValid(mapSize: MapSize, robots: seq<RobotSpec>)
    requires AxisInRange(mapSize.axisX) && AxisInRange(mapSize.axisY)
    requires AllSpawnsInside(mapSize, robots)
    ensures CoordinatesValid(mapSize, robots)
  {
    if robots != [] {
      assert SpawnInside(robots[|robots| - 1].position, mapSize);
    }
  }

  /** ...but the check only looks at the last robot: a first robot spawned off
      the 5 x 3 grid goes through, and so does a negative spawn. */
  lemma CoordinatesValidOnlyLastRobot()
    ensures var m := MapSize(Int(5), Int(3));
      var robots := [RobotSpec(RobotState(Int(9), Int(9), "N", false, 0), []),
                     RobotSpec(RobotState(Int(-4), Int(1), "N", false, 0), [])];
      CoordinatesValid(m, robots) && !AllSpawnsInside(m, robots)
  {
    var m := MapSize(Int(5), Int(3));
    var robots := [RobotSpec(RobotState(Int(9), Int(9), "N", false, 0), []),
                   RobotSpec(RobotState(Int(-4), Int(1), "N", false, 0), [])];
    assert !SpawnInside(robots[0].position, m);
  }

  /** The two unit-test maps: robot 0 0 on a 2 x 2 grid passes, robot 4 3 does
      not; a grid wider than 50 fails whatever its robots. */
  lemma CoordinatesValidExamples(robots: seq<RobotSpec>)
    ensures CoordinatesValid(MapSize(Int(2), Int(2)), [RobotSpec(RobotState(Int(0), Int(0), "N", false, 0), ["L"])])
    ensures !CoordinatesValid(MapSize(Int(2), Int(2)), [RobotSpec(RobotState(Int(4), Int(3), "N", false, 0), ["L"])])
    ensures !CoordinatesValid(MapSize(Int(51), Int(2)), robots)
  {
  }

  /** Robot `k` is the last one that has instructions. */
  predicate LastInstructed(robots: seq<RobotSpec>, k: int) {
    0 <= k < |robots| && robots[k].instructions != []
    && forall j :: k < j < |robots| ==> robots[j].instructions == []
  }

  /** The instruction check in closed form: with no instructions at all it
      passes; otherwise only the robot that has instructions last counts, through
      its last instruction and its length. */
  lemma {:induction false} InstructionsFlagClosedForm(robots: seq<RobotSpec>)
    ensures InstructionsFlag(robots) <==>
      forall k :: LastInstructed(robots, k) ==>
        IsValidInstruction(robots[k].instructions[|robots[k].instructions| - 1])
        && |robots[k].instructions| <= 50
  {
    if robots != [] {
      var n := |robots| - 1;
      var prefix := robots[..n];
      if robots[n].instructions != [] {
        LastInstructedIsLast(robots);
      } else {
        InstructionsFlagClosedForm(prefix);
        LastInstructedSkipsEmpty(robots);
      }
    }
  }

  /** When the last robot has instructions, it is the last instructed one. */
  lemma LastInstructedIsLast(robots: seq<RobotSpec>)
    requires robots != [] && robots[|robots| - 1].instructions != []
    ensures forall k :: LastInstructed(robots, k) <==> k == |robots| - 1
  {
  }

  /** A last robot without instructions leaves the last instructed one as it
      was among the robots before it. */
  lemma LastInstructedSkipsEmpty(robots: seq<RobotSpec>)
    requires robots != [] && robots[|robots| - 1].instructions == []
    ensures forall k :: LastInstructed(robots, k) <==> LastInstructed(robots[..|robots| - 1], k)
  {
    var n := |robots| - 1;
    var prefix := robots[..n];
    forall k
      ensures LastInstructed(robots, k) <==> LastInstructed(prefix, k)
    {
      if 0 <= k < n {
        assert prefix[k] == robots[k];
        if LastInstructed(prefix, k) {
          forall j | k < j < |robots| ensures robots[j].instructions == [] {
            if j < n { assert prefix[j] == robots[j]; }
          }
        }
        if LastInstructed(robots, k) {
          forall j | k < j < n ensures prefix[j].instructions == [] {
            assert prefix[j] == robots[j];
          }
        }
      }
    }
  }

  /** Valid instructions throughout and at most 50 per robot pass the check. */
  lemma AllValidPasses(robots: seq<RobotSpec>)
    requires forall k, j :: 0 <= k < |robots| && 0 <= j < |robots[k].instructions| ==>
      IsValidInstruction(robots[k].instructions[j])
    requires forall k :: 0 <= k < |robots| ==> |robots[k].instructions| <= 50
    ensures InstructionsFlag(robots)
  {
    InstructionsFlagClosedForm(robots);
  }

  /** The check forgets earlier robots: an invalid instruction, or 51
      instructions, are overlooked when a later robot's last instruction is
      valid. */
  lemma InstructionsFlagForgets()
    ensures InstructionsFlag([RobotSpec(RobotState(Int(0), Int(0), "N", false, 0), ["X"]),
                              RobotSpec(RobotState(Int(1), Int(1), "N", false, 0), ["F"])])
    ensures InstructionsFlag([RobotSpec(RobotState(Int(0), Int(0), "N", false, 0), seq(51, _ => "F")),
                              RobotSpec(RobotState(Int(1), Int(1), "N", false, 0), ["F"])])
  {
    var a := [RobotSpec(RobotState(Int(0), Int(0), "N", false, 0), ["X"]),
              RobotSpec(RobotState(Int(1), Int(1), "N", false, 0), ["F"])];
    assert a[..1][..0] == [];
    var b := [RobotSpec(RobotState(Int(0), Int(0), "N", false, 0), seq(51, _ => "F")),
              RobotSpec(RobotState(Int(1), Int(1), "N", false, 0), ["F"])];
    assert b[..1][..0] == [];
  }

  /** Within one robot only the last instruction counts: "A", "F" passes. The
      unit test's element "LA" is one instruction and fails, and so do 51
      instructions, although the message speaks of 100. */
  lemma InstructionsFlagExamples()
    ensures InstructionsFlag([])
    ensures InstructionsFlag([RobotSpec(RobotState(Int(0), Int(0), "N", false, 0), ["A", "F"])])
    ensures !InstructionsFlag([RobotSpec(RobotState(Int(0), Int(0), "N", false, 0), ["LA"])])
    ensures !InstructionsFlag([RobotSpec(RobotState(Int(0), Int(0), "N", false, 0), seq(51, _ => "F"))])
    ensures InstructionsFlag([RobotSpec(RobotState(Int(0), Int(0), "N", false, 0), seq(50, _ => "F"))])
    ensures 50 < MaxInstructionsStringLength
  {
    var a := [RobotSpec(RobotState(Int(0), Int(0), "N", false, 0), ["A", "F"])];
    assert a[..0] == [];
    var b := [RobotSpec(RobotState(Int(0), Int(0), "N", false, 0), ["LA"])];
    assert b[..0] == [];
    assert "LA" !in ValidInstructions;
    var c := [RobotSpec(RobotState(Int(0), Int(0), "N", false, 0), seq(51, _ => "F"))];
    assert c[..0] == [];
    var d := [RobotSpec(RobotState(Int(0), Int(0), "N", false, 0), seq(50, _ => "F"))];
    assert d[..0] == [];
  }
}
