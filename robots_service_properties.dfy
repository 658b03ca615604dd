/** What the orchestration of `RobotsService` guarantees: the shape of the run,
    the scent list and the counters, the output text, the messages, and the
    example of the integration test. */
module RobotsServiceProperties {
  import opened Js
  import opened Constants
  import opened RobotFile
  import opened RobotMap
  import opened RobotsUtils
  import opened RobotsService
  import RobotsUtilsProperties
  import RobotFileProperties
  import JsProperties

  // ===========================================================================
  // Shape of the run

  /** The first `k` final positions are those of the first `k` robots run on
      their own: a robot never changes what an earlier robot produced. */
  lemma {:induction false} OutputsPrefix(mapSize: MapSize, robots: seq<RobotSpec>, k: nat)
    requires k <= |robots|
    ensures Outputs(mapSize, robots)[..k] == Outputs(mapSize, robots[..k])
    decreases |robots|
  {
    if k == |robots| {
      assert robots[..k] == robots;
    } else {
      var n := |robots| - 1;
      var previous := Outputs(mapSize, robots[..n]);
      assert Outputs(mapSize, robots)[..n] == previous;
      OutputsPrefix(mapSize, robots[..n], k);
      assert robots[..n][..k] == robots[..k];
      assert Outputs(mapSize, robots)[..k] == previous[..k];
    }
  }

  /** Robot `k` is run from its own spawn with its own instructions, against the
      scents of the robots before it and of no other robot. */
  lemma OutputsAt(mapSize: MapSize, robots: seq<RobotSpec>, k: nat)
    requires k < |robots|
    ensures Outputs(mapSize, robots)[k]
      == FinalPosition(robots[k].position, robots[k].instructions, mapSize, ScentsOf(Outputs(mapSize, robots)[..k]))
  {
    OutputsPrefix(mapSize, robots, k);
    OutputsPrefix(mapSize, robots, k + 1);
    OutputsSnoc(mapSize, robots, k);
    assert Outputs(mapSize, robots)[k] == Outputs(mapSize, robots)[..k + 1][k];
  }

  // ===========================================================================
  // Scents and counters

  /** The scent list holds exactly the cells of the lost robots, one entry per
      lost robot. */
  lemma {:induction false} ScentsAreLostCells(outputs: seq<RobotState>)
    ensures |ScentsOf(outputs)| == LostCount(outputs)
    ensures forall c :: c in ScentsOf(outputs) <==>
      exists j :: 0 <= j < |outputs| && outputs[j].isLost && CellOf(outputs[j]) == c
    decreases |outputs|
  {
    if outputs != [] {
      var n := |outputs| - 1;
      var previous := outputs[..n];
      ScentsAreLostCells(previous);
      forall c
        ensures c in ScentsOf(outputs) <==>
          exists j :: 0 <= j < |outputs| && outputs[j].isLost && CellOf(outputs[j]) == c
      {
        if c in ScentsOf(previous) {
          var j :| 0 <= j < |previous| && previous[j].isLost && CellOf(previous[j]) == c;
          assert outputs[j] == previous[j];
        }
        if exists j :: 0 <= j < |outputs| && outputs[j].isLost && CellOf(outputs[j]) == c {
          var j :| 0 <= j < |outputs| && outputs[j].isLost && CellOf(outputs[j]) == c;
          if j < n {
            assert previous[j] == outputs[j];
          }
        }
      }
    }
  }

  /** No numeric cell appears twice in `cells`. */
  predicate NoCellTwice(cells: seq<Cell>) {
    forall i, j :: 0 <= i < j < |cells| && cells[j].x.Int? && cells[j].y.Int? ==> cells[i] != cells[j]
  }

  /** No cell is scented twice: a robot on a scented cell is never lost, so a
      second robot cannot fall from a cell that already holds a scent. This
      needs robots spawned not lost (a robot handed in already lost keeps its
      flag and is pushed again), and numeric coordinates (NaN equals nothing,
      so a NaN cell never counts as scented). */
  lemma {:induction false} ScentsAreDistinct(mapSize: MapSize, robots: seq<RobotSpec>)
    requires forall k :: 0 <= k < |robots| ==> !robots[k].position.isLost
    ensures NoCellTwice(ScentsOf(Outputs(mapSize, robots)))
    decreases |robots|
  {
    if robots != [] {
      var n := |robots| - 1;
      var previous := Outputs(mapSize, robots[..n]);
      var r := robots[n];
      var last := FinalPosition(r.position, r.instructions, mapSize, ScentsOf(previous));
      assert Outputs(mapSize, robots) == previous + [last];
      ScentsAreDistinct(mapSize, robots[..n]);
      ScentsOfSnoc(previous, last);
      RobotsUtilsProperties.LostOnlyFromUnscentedCell(r.position, r.instructions, mapSize, ScentsOf(previous));
      var earlier := ScentsOf(previous);
      var scents := ScentsOf(Outputs(mapSize, robots));
      forall i, j | 0 <= i < j < |scents| && scents[j].x.Int? && scents[j].y.Int?
        ensures scents[i] != scents[j]
      {
        assert scents[i] == earlier[i];
        if j < |earlier| {
          assert scents[j] == earlier[j];
        } else if scents[i] == scents[j] {
          assert Eq(earlier[i].x, last.x) && Eq(earlier[i].y, last.y);
          assert false;
        }
      }
    }
  }

  /** The scent list only grows: the scents a robot is checked against are a
      prefix of the scents of every later robot. */
  lemma {:induction false} ScentsGrow(outputs: seq<RobotState>, k: nat)
    requires k <= |outputs|
    ensures ScentsOf(outputs[..k]) <= ScentsOf(outputs)
    decreases |outputs|
  {
    if k < |outputs| {
      var n := |outputs| - 1;
      ScentsGrow(outputs[..n], k);
      assert outputs[..n][..k] == outputs[..k];
    } else {
      assert outputs[..k] == outputs;
    }
  }

  /** Robots spawned fresh, as the parser spawns them, add at most one explored
      cell each to the map's counter. */
  lemma {:induction false} ExploredTotalBounds(mapSize: MapSize, robots: seq<RobotSpec>)
    requires forall k :: 0 <= k < |robots| ==> robots[k].position.exploredSurface == 0
    ensures 0 <= SumExplored(Outputs(mapSize, robots)) <= |robots|
    decreases |robots|
  {
    if robots != [] {
      var n := |robots| - 1;
      var previous := Outputs(mapSize, robots[..n]);
      var r := robots[n];
      var last := FinalPosition(r.position, r.instructions, mapSize, ScentsOf(previous));
      ExploredTotalBounds(mapSize, robots[..n]);
      RobotsUtilsProperties.ExploredSurfaceAtMostOne(r.position, r.instructions, mapSize, ScentsOf(previous));
      ScentsOfSnoc(previous, last);
    }
  }

  /** The parser spawns every robot not lost and with nothing explored. */
  lemma ParsedRobotsAreFresh(lines: seq<string>)
    ensures forall k :: 0 <= k < |ParseRobots(lines)| ==>
      !ParseRobots(lines)[k].position.isLost && ParseRobots(lines)[k].position.exploredSurface == 0
  {
    RobotsUtilsProperties.ParseRobotsClosedForm(lines);
  }

  // ===========================================================================
  // Output text

  lemma FormatResultEmpty()
    ensures FormatResult([]) == ""
  {
  }

  /** The text of a run is the texts of its parts, one after the other. */
  lemma FormatResultAppend(a: seq<RobotState>, b: seq<RobotState>)
    ensures FormatResult(a + b) == FormatResult(a) + FormatResult(b)
  {
    assert FormatLines(a + b) == FormatLines(a) + FormatLines(b);
    JsProperties.ConcatAppend(FormatLines(a), FormatLines(b));
  }

  /** An output line read back as a position line (without its line feed)
      gives the robot's cell and orientation; the " LOST" suffix is a fourth
      field, which the parser ignores. */
  lemma FormatLineReadsBack(p: RobotState)
    requires forall k :: 0 <= k < |p.orientation| ==> p.orientation[k] != ' '
    ensures var line := FormatLine(p);
      GetPosition(line[..|line| - 1]) == RobotState(p.x, p.y, p.orientation, false, 0)
  {
    var line := FormatLine(p);
    var text := NumToString(p.x) + " " + NumToString(p.y) + " " + p.orientation;
    if p.isLost {
      var parts := [NumToString(p.x), NumToString(p.y), p.orientation, "LOST"];
      assert line[..|line| - 1] == Join(parts, " ") by {
        assert Join(parts[3..], " ") == "LOST";
        assert Join(parts[2..], " ") == p.orientation + " LOST";
        assert Join(parts[1..], " ") == NumToString(p.y) + " " + p.orientation + " LOST";
      }
      RobotsUtilsProperties.NumTextHasNoSpace(p.x);
      RobotsUtilsProperties.NumTextHasNoSpace(p.y);
      JsProperties.SplitOnJoin(parts, ' ');
      JsProperties.ParseIntOfNumToString(p.x);
      JsProperties.ParseIntOfNumToString(p.y);
    } else {
      assert line[..|line| - 1] == text;
      RobotsUtilsProperties.GetPositionOfLine(p.x, p.y, p.orientation);
    }
  }

  // ===========================================================================
  // Validation messages

  lemma FiftyText()
    ensures IntToString(50) == "50"
  {
    assert NatToString(5) == "5";
    assert NatToString(50) == NatToString(5) + ['0'];
  }

  lemma HundredText()
    ensures IntToString(100) == "100"
  {
    assert NatToString(1) == "1";
    assert NatToString(10) == "10";
    assert NatToString(100) == NatToString(10) + ['0'];
  }

  /** The coordinate message as the client reads it. */
  lemma CoordinatesMessageText()
    ensures CoordinatesMessage()
      == "Coordinates must be positive and have a maximum of 50" + " and robots must be placed within the declared map!"
  {
    FiftyText();
    assert IntToString(MaxCoordinateValue) == "50";
    assert "Coordinates must be positive and have a maximum of " + "50" == "Coordinates must be positive and have a maximum of 50";
  }

  /** The instruction message as the client reads it: it quotes 100 although
      the check allows at most 50 instructions. */
  lemma InstructionsMessageText()
    ensures InstructionsMessage() == "Instructions must be R,L,F" + " and maximum length of 100"
  {
    HundredText();
    assert IntToString(MaxInstructionsStringLength) == "100";
    assert " and maximum length of " + "100" == " and maximum length of 100";
    assert Join(ValidInstructions, ",") == "R,L,F" by {
      assert Join(ValidInstructions[2..], ",") == "F";
      assert Join(ValidInstructions[1..], ",") == "L,F";
    }
    assert "Instructions must be " + "R,L,F" == "Instructions must be R,L,F";
  }

  // ===========================================================================
  // Examples

  /** The integration test: robot `0 0 N` on a 2 x 2 grid turning left ends at
      `0 0 W`. */
  lemma ProcessExample()
    ensures Process(MapSize(Int(2), Int(2)), [RobotSpec(RobotState(Int(0), Int(0), "N", false, 0), ["L"])])
      == Output("0 0 W\n")
  {
    var mapSize := MapSize(Int(2), Int(2));
    var robots := [RobotSpec(RobotState(Int(0), Int(0), "N", false, 0), ["L"])];
    var final := RobotState(Int(0), Int(0), "W", false, 0);
    assert Validate(mapSize, robots).Pass? by {
      assert InstructionsFlag(robots);
    }
    assert Outputs(mapSize, robots[..0]) == [];
    assert FinalPosition(robots[0].position, ["L"], mapSize, []) == final by {
      assert ["L"][1..] == [];
    }
    assert Outputs(mapSize, robots) == [final];
    assert FormatLine(final) == "0 0 W\n";
    assert FormatLines([final]) == ["0 0 W\n"];
  }

  lemma ExampleLines()
    ensures GetRobotMapLines("2 2\n0 0 N\nL").lines == ["2 2", "0 0 N", "L"]
  {
    RobotFileProperties.SplitLinesExample();
  }

  lemma ExampleMapSize()
    ensures GetMapSize(RobotsFile(["2 2", "0 0 N", "L"])) == MapSize(Int(2), Int(2))
  {
    assert "2 2" == Join(["2", "2"], " ");
    JsProperties.SplitOnJoin(["2", "2"], ' ');
    JsProperties.ParseIntOfNumToString(Int(2));
  }

  lemma ExampleRobots()
    ensures ParseRobots(["2 2", "0 0 N", "L"]) == [RobotSpec(RobotState(Int(0), Int(0), "N", false, 0), ["L"])]
  {
    var lines := ["2 2", "0 0 N", "L"];
    RobotsUtilsProperties.GetPositionOfLine(Int(0), Int(0), "N");
    assert NumToString(Int(0)) + " " + NumToString(Int(0)) + " " + "N" == "0 0 N";
    assert lines[1..] == ["0 0 N", "L"];
    assert ["0 0 N", "L"][2..] == [];
    assert GetSingleRobotInstructions("L") == ["L"];
  }

  /** The same robot written as text: the pipeline parses it into that map. */
  lemma ProcessTextExample()
    ensures ProcessText("2 2\n0 0 N\nL") == Output("0 0 W\n")
  {
    ExampleLines();
    ExampleMapSize();
    ExampleRobots();
    ProcessExample();
  }

  /** A grid wider than 50 is refused with the coordinate message, whatever the
      robots. */
  lemma WideGridRefused(robots: seq<RobotSpec>)
    ensures Process(MapSize(Int(60), Int(2)), robots) == BadRequest(InvalidCoordinates(CoordinatesMessage()))
  {
  }

  /** An unknown instruction in the last instructed robot is refused with the
      instruction message. */
  lemma UnknownInstructionRefused()
    ensures Process(MapSize(Int(2), Int(2)), [RobotSpec(RobotState(Int(0), Int(0), "N", false, 0), ["L", "A"])])
      == BadRequest(InvalidInstructions(InstructionsMessage()))
  {
    var robots := [RobotSpec(RobotState(Int(0), Int(0), "N", false, 0), ["L", "A"])];
    assert !InstructionsFlag(robots) by {
      assert !IsValidInstruction("A");
    }
  }
}
