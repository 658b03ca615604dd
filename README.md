# Martian robots: a Dafny model of the grid engine and its orchestration

This project models the core of a Martian-robots service in Dafny. The service reads a text
such as

```
5 3
1 1 E
RFRFRFRF
```

The first line is the grid's upper-right corner. Each robot follows on two lines: its spawn
position, then its instructions. The service runs the robots one after the other and answers
with one line per robot, `"{x} {y} {orientation}"`, followed by `" LOST"` when the robot fell
off the grid.

A robot that falls off leaves a *scent* on the cell it fell from. A later robot that would
step off the grid from a scented cell does not move and is not lost.

The model covers the following parts:

- **The parser** (`RobotsUtils` in src/robots/robotsmap.utils.ts). The text is cut into lines
  at CR LF, CR or LF. Line 0 gives the grid. The remaining lines are paired strictly by
  position (blank lines included). Positions are read with JavaScript's `parseInt`. The parser
  builds a `RobotsMap` object whose robots hold fresh `Position` objects.
- **The movement engine.** This covers `rotate` and `moveForward`; `calculateNextPosition`,
  which writes turns and the lost flag into its argument object and returns a new object for a
  move on the grid; and `calculateFinalPosition`, which loops over the instructions, stops
  once the robot is lost and updates the explored-surface counter.
- **The two validators.** Each folds over the robots, overwriting a boolean flag.
- **The service** (src/robots/robots.service.ts):
  - the validation gate `validateRobotsMap`;
  - the `forEach` of `processRobotInstructions`, which threads the scent list and updates the
    map's `exploredSurface` and `lostRobots` counters in place;
  - the output format;
  - the parse → validate → run → format pipeline of `processRobotsMap`.

How the source is expressed in Dafny:

- **Numbers.** JavaScript numbers are `Js.Num`, which is `Int(v)` or `NaN`. Every comparison
  with NaN is false and `!=` is true, as in JavaScript. `parseInt`, `split`, `join` and the
  template literal `${n}` are written out in module `Js`.
- **Objects updated in place.** `Position` and `RobotsMap` are classes. The methods that
  update them (`CalculateNextPosition`, `CalculateFinalPosition`, `RunRobots`,
  `ProcessRobotInstructions`) name the fields they write in `modifies`.
- **Specification functions.** Each method is proved against a function on values:
  - `NextPosition` and `Step` for one instruction;
  - `FinalPosition` for one robot's final position;
  - `InPlacePart` for what becomes of the caller's spawn object;
  - `Outputs` for the fold over the robots, with `ScentsOf`, `LostCount` and `SumExplored`;
  - `SpawnsAfter` for what every robot's spawn object holds after the run, and `Finished` for
    the map's counters and spawn objects after `processRobotInstructions`;
  - `FormatResult` for the output text;
  - `Validate` and `Process` for the gate and the whole pipeline.

The quirks of the source are reproduced, not fixed, and each is stated by a lemma:

- **The coordinate check looks only at the last robot.** It overwrites its flag per robot,
  and it never checks negative spawns (`CoordinatesValidOnlyLastRobot`).
- **The instruction check is decided by one robot.** Only the last instruction of the last
  robot that has instructions counts, together with that robot's length against a literal 50
  (`InstructionsFlagClosedForm`, `InstructionsFlagForgets`). The error message quotes 100
  (`InstructionsMessageText`).
- **The explored-surface counter saturates at 1.** `e = e ? e++ : 1` stores the old value, so
  the counter never grows past 1 (`ExploredSurfaceSaturates`, `ExploredSurfaceExample`).
- **The caller's spawn object is changed in place.** `calculateNextPosition` writes turns and
  the lost flag into it (`CalculateNextPosition`, `CalculateFinalPosition`, `InPlacePart`).

The names `exploredSurface` and `allCordinatesAreValid` suggest a count of the cells each robot
explored and a check of every robot's spawn. The model follows what the code does: a counter that
stops at 1, and a check that only the last robot decides.

## Model

| member | source | states |
|---|---|---|
| RobotFile.SplitLines | src/robots/interfaces/robotfile.interface.ts:4 | the split on `/\r\n\|\r\|\n/` always yields at least one line (the empty text is one empty line) |
| RobotFileProperties.LinesHaveNoBreaks | src/robots/robotsmap.utils.ts:12-15 | no line of the split holds a CR or an LF |
| RobotFileProperties.LineCount | src/robots/robotsmap.utils.ts:12-15 | the number of lines is the number of line breaks (CR LF counted once) plus one, empty lines kept |
| RobotFileProperties.SplitLinesOfJoin | src/robots/interfaces/robotfile.interface.ts:4 | lines joined with LF, CR LF or CR are cut back into exactly those lines, empty ones included |
| RobotFileProperties.SplitLinesAfterBreak | src/robots/interfaces/robotfile.interface.ts:4 | a break in front of joined lines adds exactly one empty line in front |
| RobotFileProperties.SplitLinesExample | src/robots/test/robotsmap.utils.ut.spec.ts:55-64 | "2 2\n0 0 N\nL" is cut into "2 2", "0 0 N", "L" |
| JsProperties.ParseIntOfNumToString | src/robots/robotsmap.utils.ts:45 | `parseInt` reads back the text `${n}` of every integer as that integer, and of NaN as NaN |
| JsProperties.SplitOnJoin | src/robots/robotsmap.utils.ts:44 | splitting fields joined by a separator that no field holds gives back the fields |
| JsProperties.JoinSplitOn | src/robots/robotsmap.utils.ts:18 | joining the pieces of a split with its separator gives back the text |
| JsProperties.ConcatChars | src/robots/robotsmap.utils.ts:48 | `s.split('')` joined with nothing is `s` again |
| JsProperties.ConcatAppend | src/robots/robots.service.ts:36 | `join("")` of two arrays one after the other is the two joins concatenated |
| RobotMap.Position.constructor | src/robots/robotsmap.utils.ts:102 | a new object (object literal or `Object.assign` clone) holds exactly the given value |
| RobotMap.RobotsMap.constructor | src/robots/robotsmap.utils.ts:10 | the new map holds the given size, robots and counters |
| RobotsUtils.GetRobotMapLines | src/robots/robotsmap.utils.ts:12-15 | a file always has at least one line |
| RobotsUtils.GetPosition | src/robots/robotsmap.utils.ts:43-46 | a parsed spawn is not lost and has explored nothing |
| RobotsUtils.GetRobotInstructions | src/robots/robotsmap.utils.ts:21-42 | from n lines it builds (n-1)/2 robots (none for no line); robot k is spawned by line 2k+1 and instructed by line 2k+2, each on a fresh Position object, no two robots sharing one |
| RobotsUtils.GetRobotMap | src/robots/robotsmap.utils.ts:6-11 | the new map's grid comes from line 0, its robots are those of the line pairing, on fresh distinct objects, and both counters start at 0 |
| RobotsUtils.CalculateNextPosition | src/robots/robotsmap.utils.ts:64-81 | the returned object holds `NextPosition` of the argument's old value; it is the argument itself unless a forward step stays on the grid, in which case it is a new object and the argument is left alone |
| RobotsUtils.CalculateFinalPosition | src/robots/robotsmap.utils.ts:50-63 | the returned object holds `FinalPosition` of the spawn; the spawn object ends holding `InPlacePart`; the result is the spawn object or a new one; the scents are not touched |
| RobotsUtils.AllCordinatesAreValid | src/robots/robotsmap.utils.ts:121-129 | the result is `CoordinatesValid`: both axes in [-1, 50], and no robot or the last robot's spawn at most the axes |
| RobotsUtils.AllInstructionsAreValid | src/robots/robotsmap.utils.ts:131-142 | the result is `InstructionsFlag`, the overwriting fold over robots and instructions |
| RobotsUtilsProperties.PairLinesClosedForm | src/robots/robotsmap.utils.ts:21-42 | pairing m lines yields m/2 robots, robot k made of lines 2k and 2k+1; a trailing odd line is dropped |
| RobotsUtilsProperties.ParseRobotsClosedForm | src/robots/robotsmap.utils.ts:21-42 | a file of n lines holds (n-1)/2 robots, robot k from lines 2k+1 and 2k+2; line 0 is never a robot |
| RobotsUtilsProperties.GetRobotMapRobots | src/robots/robotsmap.utils.ts:6-11 | the parsed map's robots, as values, are exactly the robots of the text's lines |
| RobotsUtilsProperties.InstructionsOfLine | src/robots/robotsmap.utils.ts:47-49 | one instruction per character, concatenating back to the line; a blank line gives none |
| RobotsUtilsProperties.GetPositionOfLine | src/robots/robotsmap.utils.ts:43-46 | the line `${x} ${y} ${o}` is read back as x, y and o (o without spaces) |
| RobotsUtilsProperties.NumTextHasNoSpace | src/robots/robots.service.ts:36 | the text of a number holds neither a space nor a line break |
| RobotsUtilsProperties.GetMapSizeOfLine | src/robots/robotsmap.utils.ts:16-20 | a size line `${x} ${y}` is read back as the grid x by y, for every x and y (NaN included), whatever lines follow |
| RobotsUtilsProperties.GetMapSizeOfText | src/robots/robotsmap.utils.ts:12-20 | a text whose first line, ended by LF, is `${x} ${y}` declares the grid x by y, whatever follows |
| RobotsUtilsProperties.GetMapSizeExamples | src/robots/robotsmap.utils.ts:16-20 | "5 3" gives the grid 5 x 3; a size line without a second field gives a height no comparison accepts |
| RobotsUtilsProperties.UndefinedIsNaN | src/robots/robotsmap.utils.ts:18-19 | a missing field, read as `undefined`, parses to NaN |
| RobotsUtilsProperties.RotateOnCompass | src/robots/robotsmap.utils.ts:82-100 | on N, E, S, W, "L" turns a quarter anticlockwise and anything else a quarter clockwise |
| RobotsUtilsProperties.RotateUnknown | src/robots/robotsmap.utils.ts:96-97 | an orientation other than N, E, S, W is returned unchanged |
| RobotsUtilsProperties.RotateOtherIsRight | src/robots/robotsmap.utils.ts:84-95 | every `rotateTo` other than "L" acts as "R" |
| RobotsUtilsProperties.RotateInverse | src/robots/robotsmap.utils.ts:82-100 | L then R, and R then L, give back any orientation |
| RobotsUtilsProperties.RotateFourTimes | src/robots/robotsmap.utils.ts:82-100 | four identical turns give back any orientation |
| RobotsUtilsProperties.FourTurns | src/robots/robotsmap.utils.ts:82-100 | four turns of L, or four of R, give back any orientation |
| RobotsUtilsProperties.MoveForwardDisplacement | src/robots/robotsmap.utils.ts:101-120 | a step adds the orientation's unit displacement: exactly one coordinate changes by one for N, E, S, W; orientation, lost flag and counter are kept; any other orientation gives an equal position |
| RobotsUtilsProperties.MoveForwardTurnRoundBack | src/robots/robotsmap.utils.ts:101-120 | step, turn round, step, turn round gives back the start |
| RobotsUtilsProperties.NextPositionCases | src/robots/robotsmap.utils.ts:64-81 | "F" off the grid keeps cell and orientation and is lost exactly when the cell is unscented; "F" on the grid moves; turns change only the orientation; other instructions change nothing |
| RobotsUtilsProperties.ScentProtects | src/robots/robotsmap.utils.ts:72-74 | a robot on a scented cell is never made lost |
| RobotsUtilsProperties.NextPositionOnGrid | src/robots/robotsmap.utils.ts:70-78 | a robot on the grid stays on the grid |
| RobotsUtilsProperties.NextPositionExamples | src/robots/test/robotsmap.utils.ut.spec.ts:430-503 | 1 2 N on a scented cell stays, not lost; 0 0 S becomes lost; 0 0 N moves to 0 1 N |
| RobotsUtilsProperties.FinalPositionAppend | src/robots/robotsmap.utils.ts:53-61 | running a then b is running a + b |
| RobotsUtilsProperties.FinalPositionLost | src/robots/robotsmap.utils.ts:54 | a lost robot ignores every instruction |
| RobotsUtilsProperties.LostIsFinal | src/robots/robotsmap.utils.ts:53-61 | once lost, no further instruction changes the position |
| RobotsUtilsProperties.FinalPositionOnGrid | src/robots/robotsmap.utils.ts:50-63 | a robot spawned on the grid ends on the grid |
| RobotsUtilsProperties.LostOnlyFromUnscentedCell | src/robots/robotsmap.utils.ts:50-81 | a robot ends lost only on an unscented cell from which a step leaves the grid |
| RobotsUtilsProperties.ExploredSurfaceSaturates | src/robots/robotsmap.utils.ts:56-58 | the counter ends as it started if the cell never changed, else at its start if non-zero, else 1 |
| RobotsUtilsProperties.ExploredSurfaceAtMostOne | src/robots/robotsmap.utils.ts:56-58 | from a fresh spawn the counter ends at 0 or 1, at 1 exactly when the cell changed |
| RobotsUtilsProperties.ExploredSurfaceExample | src/robots/robotsmap.utils.ts:50-63 | three steps north from 0 0 end at 0 3 with a counter of 1 |
| RobotsUtilsProperties.InPlacePartKeepsCell | src/robots/robotsmap.utils.ts:64-81 | the caller's spawn object keeps its cell |
| RobotsUtilsProperties.InPlacePartWithoutMoves | src/robots/robotsmap.utils.ts:50-81 | without "F" the caller's spawn object ends as the robot's final position |
| RobotsUtilsProperties.AllSpawnsInsideImpliesValid | src/robots/robotsmap.utils.ts:121-129 | axes in range and every spawn inside pass the check |
| RobotsUtilsProperties.CoordinatesValidOnlyLastRobot | src/robots/robotsmap.utils.ts:124-126 | a first robot spawned off the grid, or a negative spawn, still passes |
| RobotsUtilsProperties.CoordinatesValidExamples | src/robots/test/robotsmap.utils.ut.spec.ts:330-369 | 0 0 on 2 x 2 passes, 4 3 fails, a grid of 51 fails whatever the robots |
| RobotsUtilsProperties.InstructionsFlagClosedForm | src/robots/robotsmap.utils.ts:131-142 | the check passes iff the last robot with instructions has a valid last instruction and at most 50 instructions (vacuous when no robot has instructions) |
| RobotsUtilsProperties.AllValidPasses | src/robots/robotsmap.utils.ts:131-142 | valid instructions throughout and at most 50 per robot pass |
| RobotsUtilsProperties.InstructionsFlagForgets | src/robots/robotsmap.utils.ts:134-139 | an invalid instruction or an over-long list in an earlier robot is forgotten |
| RobotsUtilsProperties.InstructionsFlagExamples | src/robots/test/robotsmap.utils.ut.spec.ts:370-428 | no robot passes; "A","F" passes; "LA" fails; 51 instructions fail, 50 pass; 50 is below the quoted limit 100 |
| RobotsService.Validate | src/robots/robots.service.ts:43-50 | passes iff both checks pass; a coordinate failure is reported before an instruction failure, each with its own message |
| RobotsService.ValidateRobotsMap | src/robots/robots.service.ts:43-50 | the outcome is `Validate` of the map's size and robots |
| RobotsService.ScentsOf | src/robots/robots.service.ts:54-59 | there are never more scents than robots |
| RobotsService.ScentsOfSnoc | src/robots/robots.service.ts:59-60 | one more robot adds its cell to the scents and one to the lost count exactly when it is lost, and adds its counter to the explored total |
| RobotsService.Outputs | src/robots/robots.service.ts:52-66 | one final position per robot |
| RobotsService.ProcessRobot | src/robots/robots.service.ts:56-61 | the callback pushes the robot's `FinalPosition` against the scents so far, pushes it on the scents iff lost, adds its counter to the map's, leaves the robot's own spawn object holding `InPlacePart`, and leaves the other robots' objects alone |
| RobotsService.RunRobot | src/robots/robots.service.ts:56-61 | after robot k the outputs, scents and counter are those of the first k+1 robots, and the spawn objects of robots 0..k hold what `SpawnsAfter` gives |
| RobotsService.RunRobots | src/robots/robots.service.ts:53-61 | the final position objects hold `Outputs` in robot order; the scent list holds the lost cells, one per lost robot; the map's counter grows by `SumExplored`; every spawn object ends holding `SpawnsAfter`, its `InPlacePart` against the scents of the robots before it |
| RobotsService.ProcessRobotInstructions | src/robots/robots.service.ts:52-66 | the result holds `Outputs`, `lostRobots` is the number of lost robots, `exploredSurface` is its old value plus the robots' counters, and the spawn objects hold `SpawnsAfter` (`Finished`) |
| RobotsService.FormatLine | src/robots/robots.service.ts:36 | every output line ends with a line feed |
| RobotsService.FormatLines | src/robots/robots.service.ts:36 | one line per final position, in order |
| RobotsService.Process | src/robots/robots.service.ts:28-36 | the pipeline answers with a bad request iff validation fails, with the validation's error |
| RobotsService.MovementsTextOf | src/robots/robots.service.ts:36 | the text read off the final position objects is `FormatResult` of their values |
| RobotsService.RunAndFormat | src/robots/robots.service.ts:34-36 | running and formatting a map gives `FormatResult(Outputs(...))` of its robots, and leaves the map and its spawn objects `Finished` |
| RobotsService.ValidateAndRun | src/robots/robots.service.ts:32-36 | the answer is `Process` of the map; a rejected map and its robots are left as they were; an accepted map is left `Finished`: lost count, explored counter and spawn objects as the run leaves them |
| RobotsService.ProcessRobotsMap | src/robots/robots.service.ts:26-41 | a text is parsed first and answers `ProcessText`; a map object answers `Process`; a rejected map is unchanged, and an accepted one is left `Finished` |
| RobotsServiceProperties.OutputsPrefix | src/robots/robots.service.ts:56-61 | the first k outputs are those of the first k robots alone |
| RobotsServiceProperties.OutputsAt | src/robots/robots.service.ts:57 | robot k runs from its spawn with its instructions against the scents of robots 0..k-1 only |
| RobotsServiceProperties.ScentsAreLostCells | src/robots/robots.service.ts:54-63 | the scents are exactly the cells of lost robots, as many as there are lost robots |
| RobotsServiceProperties.ScentsAreDistinct | src/robots/robotsmap.utils.ts:72-74 | with robots spawned not lost, no cell with numeric coordinates is scented twice, because a robot on a scented cell is never lost |
| RobotsServiceProperties.ScentsGrow | src/robots/robots.service.ts:54-59 | the scent list only grows: earlier scent lists are prefixes of later ones |
| RobotsServiceProperties.ExploredTotalBounds | src/robots/robots.service.ts:60 | with fresh spawns the explored total lies between 0 and the number of robots |
| RobotsServiceProperties.ParsedRobotsAreFresh | src/robots/robotsmap.utils.ts:45 | every parsed robot starts not lost with nothing explored |
| RobotsServiceProperties.FormatResultEmpty | src/robots/robots.service.ts:36 | zero robots give the empty text |
| RobotsServiceProperties.FormatResultAppend | src/robots/robots.service.ts:36 | the text of two runs one after the other is their texts concatenated |
| RobotsServiceProperties.FormatLineReadsBack | src/robots/robots.service.ts:36 | an output line without its line feed, parsed as a position line, gives back the cell and orientation |
| RobotsServiceProperties.CoordinatesMessageText | src/robots/robots.service.ts:46 | the coordinate message interpolates 50 |
| RobotsServiceProperties.InstructionsMessageText | src/robots/robots.service.ts:48 | the instruction message lists R,L,F and quotes 100 |
| RobotsServiceProperties.ProcessExample | src/robots/test/robots.service.integration.spec.ts:54-73 | robot 0 0 N turning left on a 2 x 2 grid gives "0 0 W\n" |
| RobotsServiceProperties.ProcessTextExample | src/robots/robots.service.ts:28-36 | the text "2 2\n0 0 N\nL" gives "0 0 W\n" |
| RobotsServiceProperties.WideGridRefused | src/robots/robots.service.ts:45-46 | a grid of width 60 is refused with the coordinate message whatever its robots |
| RobotsServiceProperties.UnknownInstructionRefused | src/robots/robots.service.ts:47-48 | an unknown last instruction is refused with the instruction message |

## Left out

- HTTP routing, upload buffers and bootstrap (src/robots/robots.controller.ts, src/main.ts) are I/O plumbing.
- Reading a file (`processRobotsMapFromFile`, src/utils/files.service.ts) is file I/O.
- The statistics insert at src/robots/robots.service.ts:38, with `createRobotMapRun` and `getAllRobotMapRun`, is database persistence. So are `async`/`await` and console logging.
- A thrown `BadRequestException` is the `BadRequest` answer, not an exception.
- src/robots/robots.utils.ts is not part of this model. It is an unused, stale copy of the parser.
- Numbers are unbounded integers or NaN. Double-precision rounding of very large coordinates is not modelled. `-0` is the same as `0`, which it equals and prints as.
- A map object given directly to the service is typed as the interfaces say. Fields of other JavaScript types are not modelled.
- RobotsService.ProcessRobotInstructions: requires that no two robots share a `Position` object. The parser always builds distinct objects, but a map object handed to the service could share one between robots. That aliasing is not modelled.
- RobotsService.RunRobots: the same aliasing limit as `ProcessRobotInstructions`.
- RobotsService.RunRobot: the same aliasing limit as `ProcessRobotInstructions`.
- RobotsService.RunAndFormat: the same aliasing limit as `ProcessRobotInstructions`.
- RobotsService.ValidateAndRun: the same aliasing limit as `ProcessRobotInstructions`.
- RobotsService.ProcessRobotsMap: for a map object, the same aliasing limit as `ProcessRobotInstructions`.
- RobotsUtils.GetSingleRobotInstructions: strings are sequences of Unicode scalar values, but JavaScript strings are sequences of UTF-16 code units. `split('')` turns a character outside the Basic Multilingual Plane into two instructions, and the model counts it as one. A line holding such a character can therefore pass the 50-instruction limit in the model although the service refuses it. The same holds for every length and index on text elsewhere in the model.
