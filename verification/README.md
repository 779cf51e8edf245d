# Advent of Code 2023, days 3, 10 and 16, in Dafny

This project models three puzzle solutions from the repository in Dafny and
proves what they compute. Each solution gets one module:

- `PipeMaze` (`pipe_maze.dfy`, `prob10/src/main.rs`) is the pipe maze.
  - It parses a grid of pipe tiles and finds the start tile `S` and the two
    pipes that link back to it.
  - Part 1 follows the loop both ways at once and counts the steps until the
    two walkers meet.
  - Part 2 copies the loop onto a clean map and counts the enclosed tiles with
    a row-major parity scan.
- `LightBeams` (`light_beams.dfy`, `prob16/src/main.rs`) is a beam of light
  entering a grid of mirrors and splitters at its top left corner.
  - A work queue of (coordinate, direction) beams and a set of the beams
    already expanded follow it through the grid.
  - The answer is the number of tiles those beams cover.
- `EngineSchematic` (`engine_schematic.dfy`, `prob3/src/main.rs`) is the
  engine schematic.
  - A maximal run of digits is a part number when one of its digits has a
    symbol among its eight neighbours.
  - Part 1 is the sum of the part numbers.

`Wrappers` (`wrappers.dfy`) holds the `Option` and `Result` types. The
`Result` type supports `:-`, which plays the role of Rust's `?`.

## How the model is organised

Each module follows the same plan.

- Code that computes a value is a function with a named result. Its contract
  relates the result to the input.
- The loops of the source are methods with `while` loops. Each method is
  proved against a specification function, such as:
  - `Scan(Flatten(m.nodes)).count` for `count_internal_tiles`;
  - `Reached`, the beams reachable from the entry, for the work queue of `beam`;
  - `RowParts`, the maximal touching non-zero runs of a row, for the inner loop
    of `get_part_numbers`.
- Separate lemmas then say what those specification functions mean.

The loops of prob10 have no bound in the source. There, the specification is a
ghost function of a ghost step bound `n`, and the precondition says the walk
ends within `n` steps.

Input text is a sequence of lines. Strings are sequences of `char`. Rust's
`usize` and `u32` become `nat`.

## Model

| member | source | states |
|---|---|---|
| PipeMaze.ParsePipe | prob10/src/main.rs:17-33 | a one-character string parses exactly when it is one of the eight tile glyphs; the parsed tile prints back as the input; any other string is `InvalidPipe` |
| PipeMaze.ParseGlyph | prob10/src/main.rs:20-32 | parsing the glyph of any tile gives that tile back (round trip) |
| PipeMaze.ConnectsTo | prob10/src/main.rs:35-48 | the start and ground tiles connect nowhere; every pipe connects to exactly two sides; straight pipes connect to opposite sides, and corners to one vertical and one horizontal side |
| PipeMaze.Exit | prob10/src/main.rs:116-122 | the direction taken out of a pipe is one of its connections; entered through one end, the pipe is left by the other |
| PipeMaze.ExitInvolution | prob10/src/main.rs:116-122 | leaving by the exit and coming back leads out of the end first entered |
| PipeMaze.ParseRow | prob10/src/main.rs:64-68 | a line parses exactly when all of its characters are tile glyphs; the tiles print back as the line; otherwise `InvalidPipe` |
| PipeMaze.ParseRows | prob10/src/main.rs:62-69 | all lines parse exactly when every character is a tile glyph; every parsed row prints back as its line |
| PipeMaze.ParseMap | prob10/src/main.rs:61-78 | the map parses exactly when every character is a glyph; height is the number of lines and width the length of the first; rectangular input gives a valid map |
| PipeMaze.GetNode | prob10/src/main.rs:97-103 | fails with `InvalidCoordinate` exactly when the coordinate is out of bounds, and otherwise returns the tile there |
| PipeMaze.ShiftCoord | prob10/src/main.rs:196-233 | `None` exactly at the four edge guards; otherwise the coordinate one step in the direction; for an in-bounds coordinate, `Some` exactly when the neighbour is on the grid |
| PipeMaze.GetNextNode | prob10/src/main.rs:106-145 | every error case of the source, in the source's order; on success, the neighbour across the exit, which is not ground, and the side it is entered from |
| PipeMaze.NextNodeLeavesByOtherEnd | prob10/src/main.rs:116-144 | entering a pipe through a connection, the step leaves by the other connection, moves to `ShiftCoord` of that side and arrives from the opposite side |
| PipeMaze.OffConnectionExample | prob10/src/main.rs:116-144 | a `\|` pipe entered from the West, which it does not connect to, is left by its first listed end (North) onto ground, giving `InvalidNextNode`, although its other end leads off the grid |
| PipeMaze.WalkFailureSticks | prob10/src/main.rs:111-142 | once a walk of `get_next_node` steps fails, every longer walk fails with the same error |
| PipeMaze.StartSearch | prob10/src/main.rs:85-94 | the result is a start tile, and no start tile comes before it in row-major order; `None` exactly when there is no start |
| PipeMaze.FindStart | prob10/src/main.rs:85-94 | the nested loops return the first start tile in row-major order, or `StartNotFound` |
| PipeMaze.Probe | prob10/src/main.rs:154-160 | a neighbour is counted exactly when it is on the grid and its pipe connects back towards the start |
| PipeMaze.ListedMembers | prob10/src/main.rs:150-184 | a direction is in the list built by the four checks exactly when its check succeeded |
| PipeMaze.ListedInOrder | prob10/src/main.rs:154-184 | the list is in North, South, West, East order |
| PipeMaze.ListedPair | prob10/src/main.rs:186-191 | the list has length 2 exactly when exactly two distinct directions link back |
| PipeMaze.GetStartDirections | prob10/src/main.rs:148-194 | with no start tile, `StartNotFound`; otherwise succeeds exactly when exactly two neighbours link back, giving those two in N, S, W, E order; otherwise the wrong-count error |
| PipeMaze.ScanStep | prob10/src/main.rs:250-277 | the inside flag flips exactly on `\|`, `S`, F..J and L..7; `-` changes nothing; ground inside the loop is counted; only L and F are remembered as the previous corner |
| PipeMaze.ScanCountsGround | prob10/src/main.rs:272-276 | the scan never counts more tiles than there are ground tiles |
| PipeMaze.CountInternalTiles | prob10/src/main.rs:243-282 | the row-by-row loop returns the count of the scan over the flattened map, and that count is at most height × width |
| PipeMaze.Setup | prob10/src/main.rs:296-298 | parsing, finding the start and finding its two exits give the map, the start and two distinct directions that both link back, or the first error |
| PipeMaze.FirstStep | prob10/src/main.rs:301-308 | the first step from the start in a linking direction stays on the grid, one step away in that direction |
| PipeMaze.TrackNext | prob10/src/main.rs:312-314 | each later position of the walk from the start is `get_next_node` of the previous one |
| PipeMaze.Advance | prob10/src/main.rs:313-314 | one call of `get_next_node` moves the walker one step along its trail |
| PipeMaze.TrackStaysFailed | prob10/src/main.rs:313-314 | once a trail has failed it stays failed |
| PipeMaze.ChaseMeetsFirst | prob10/src/main.rs:311-318 | when the chase succeeds, its count is the first step at which the two walkers stand on the same tile |
| PipeMaze.ChaseFailsWithATrail | prob10/src/main.rs:311-318 | when the chase fails, one of the two trails has failed by the step bound |
| PipeMaze.ChaseBothWays | prob10/src/main.rs:299-318 | the loop that advances both walkers returns the chase of the two trails from the start |
| PipeMaze.Part1 | prob10/src/main.rs:295-319 | `part1` is the prologue followed by the chase |
| PipeMaze.Part1Meaning | prob10/src/main.rs:295-319 | either the prologue's error, or the first step at which the two walkers meet (no earlier meeting, at most n + 1), or the failure of one walker |
| PipeMaze.CircuitCloses | prob10/src/main.rs:343-348 | a closed circuit ends at the first return to the start, with every earlier step away from it; a failed one means the trail has failed |
| PipeMaze.CellsAreVisited | prob10/src/main.rs:343-345 | the copied tiles are exactly the positions of the walk before the return |
| PipeMaze.CleanMap | prob10/src/main.rs:325-329 | the clean map has the size of the original |
| PipeMaze.CleanMapEmpty | prob10/src/main.rs:325-333 | the blank map with the start written on it is the clean map of no tiles |
| PipeMaze.CleanMapGrows | prob10/src/main.rs:344-345 | writing one tile of the loop onto the clean map adds that tile to it |
| PipeMaze.CopyTile | prob10/src/main.rs:344-345 | copying a tile keeps the clean map in step with the visited tiles |
| PipeMaze.TraceLoop | prob10/src/main.rs:331-348 | the tracing loop returns the clean map of the tiles visited before the return to the start, or the walk's failure |
| PipeMaze.Part2 | prob10/src/main.rs:321-351 | `part2` is the internal-tile count of the clean map of the loop, or the first error; the count is at most the grid size |
| LightBeams.NodeOf | prob16/src/main.rs:207-219 | a character parses exactly to the tile whose glyph it is; any other character is `UnknownNode` carrying it |
| LightBeams.NodeOfGlyph | prob16/src/main.rs:210-218 | parsing the glyph of any tile gives that tile back |
| LightBeams.ParseRow | prob16/src/main.rs:179-183 | a line parses exactly when every character does; the tiles print back as the line; an error is that of some character |
| LightBeams.ParseGrid | prob16/src/main.rs:177-184 | the grid parses exactly when every line does, row by row; an error is that of some line |
| LightBeams.ParseLayout | prob16/src/main.rs:176-187 | the layout parses exactly when every character is a glyph; it has one row per line and prints back as the lines |
| LightBeams.NextCoordinate | prob16/src/main.rs:17-24 | the next coordinate is one step in the beam's direction, so exactly one of row and column changes |
| LightBeams.StepBack | prob16/src/main.rs:17-24 | stepping forward and then back in the opposite direction returns to the start |
| LightBeams.BeamGoingOffGrid | prob16/src/main.rs:162-170 | for a beam on the grid, true exactly when its next step leaves the grid; false ensures the step does not go below zero |
| LightBeams.StepStaysInGrid | prob16/src/main.rs:63-69 | a beam that is not going off the grid steps onto a tile of the grid |
| LightBeams.ReflectUp | prob16/src/main.rs:95-114 | `/` turns a vertical beam horizontal and a horizontal one vertical |
| LightBeams.ReflectDown | prob16/src/main.rs:115-134 | `\` turns a vertical beam horizontal and a horizontal one vertical |
| LightBeams.MirrorsAreInvolutions | prob16/src/main.rs:95-134 | reflecting twice in the same mirror restores the direction |
| LightBeams.MirrorsAreReversible | prob16/src/main.rs:95-134 | a beam sent back along a mirror's output leaves opposite to where it came in |
| LightBeams.Outgoing | prob16/src/main.rs:70-135 | empty tiles and splitters met edge-on pass the beam on; splitters met flat split it into two opposite beams across the old direction; mirrors reflect it |
| LightBeams.Successors | prob16/src/main.rs:63-135 | no successors exactly when the beam goes off the grid; every successor sits on the next coordinate, on the grid |
| LightBeams.Expand | prob16/src/main.rs:67-135 | the queue grows by exactly the successors of the beam, in the source's push order |
| LightBeams.TraceStaysInside | prob16/src/main.rs:57-61 | every path from the starts stays inside a set that holds the starts and is closed under successors |
| LightBeams.ProgressTaking | prob16/src/main.rs:57-73 | expanding a new beam keeps the worklist invariant: queued and taken beams are reachable, and the taken set is closed up to the queue |
| LightBeams.ProgressDone | prob16/src/main.rs:57-136 | when the queue is empty, the taken beams are exactly the reachable ones |
| LightBeams.Turn | prob16/src/main.rs:57-73 | one round of the queue: a beam already taken is dropped; otherwise it is recorded and its successors are queued |
| LightBeams.Propagate | prob16/src/main.rs:57-136 | the loop ends with the taken set equal to the beams reachable from the start; it expands each at most once, at most 4 × height × width |
| LightBeams.Entry | prob16/src/main.rs:40-55 | the first tile turns the entering beam into one or two beams on (0, 0) |
| LightBeams.AllBeamsCount | prob16/src/main.rs:38 | there are 4 × height × width distinct (coordinate, direction) pairs |
| LightBeams.EnergizedBounds | prob16/src/main.rs:138-159 | the top left tile is energized, and between 1 and height × width tiles are |
| LightBeams.TurnedStraightOff | prob16/src/main.rs:47-50 | with `/` in the corner the beam leaves at once and the answer is 1 |
| LightBeams.UpwardHalfLeaves | prob16/src/main.rs:51-54 | with `\|` in the corner only the downward half counts: the upward half leaves the grid at once |
| LightBeams.SendBeam | prob16/src/main.rs:30-160 | `beam` returns the number of distinct tiles covered by the beams reachable from the entry |
| LightBeams.Part1 | prob16/src/main.rs:232-236 | a parse error is passed on; otherwise the answer is the energized count, between 1 and the grid size |
| LightBeams.ParseRowExamples | prob16/src/main.rs:258-272 | the rows of the source's parse test parse to the tiles it expects |
| LightBeams.ParseGlyphs | prob16/src/main.rs:176-187 | printing tiles as glyphs and parsing them back gives the tiles |
| LightBeams.ParseExample | prob16/src/main.rs:258-272 | the source's 3 × 3 parse test gives the layout it expects |
| LightBeams.OffGridExample | prob16/src/main.rs:274-282 | the four edge cases of the source's test go off the grid |
| LightBeams.EmptyGridExample | prob16/src/main.rs:284-290 | the empty 3 × 3 layout energizes 3 tiles |
| LightBeams.CornerThreeParses | prob16/src/main.rs:292-295 | the text of the source's corner-mirror test parses to the layout with `\` in the top right corner |
| LightBeams.CornerMirrorExample | prob16/src/main.rs:292-298 | the corner mirror turns the beam down the right column: 5 tiles are energized |
| LightBeams.SplitThreeParses | prob16/src/main.rs:300-303 | the text of the source's splitter test parses to its layout |
| LightBeams.SplitterExample | prob16/src/main.rs:300-306 | the beam turns down into the splitter and leaves by both sides: 5 tiles are energized |
| LightBeams.LoopExample | prob16/src/main.rs:308-315 | the looping layout of the source's test energizes 7 tiles |
| LightBeams.TurnThreeParses | prob16/src/main.rs:317-320 | the text of the source's immediate-mirror test parses to its layout |
| LightBeams.ImmediateMirrorExample | prob16/src/main.rs:317-323 | a mirror on the first tile turns the entry beam down at once; the bottom left mirror turns it right: 5 tiles are energized |
| EngineSchematic.SymbolExamples | prob3/src/main.rs:235-242 | `#`, `*` and `$` are symbols; `.` and `7` are not |
| EngineSchematic.ValueZero | prob3/src/main.rs:52-58 | a run of digits is worth 0 exactly when all of its digits are `0` |
| EngineSchematic.FromStr | prob3/src/main.rs:34-43 | the rows are the lines, the height is their number and the width is the length of the first; valid exactly when the first line is not empty |
| EngineSchematic.FromStrExample | prob3/src/main.rs:191-196 | the source's test: the rows are the lines |
| EngineSchematic.GetChar | prob3/src/main.rs:78-125 | `None` exactly when the neighbour is off the grid; an error exactly when it is on the grid but past the end of a short line; otherwise the character there |
| EngineSchematic.GetCharRectangular | prob3/src/main.rs:116-124 | on a rectangular schematic `get_char` never fails |
| EngineSchematic.GetCharExamples | prob3/src/main.rs:198-233 | the ten lookups of the source's test |
| EngineSchematic.SymbolAround | prob3/src/main.rs:133-150 | on a rectangular schematic, the loop from the k-th direction on answers whether a symbol lies in one of those directions |
| EngineSchematic.IsAdjacentToSymbol | prob3/src/main.rs:128-151 | on a rectangular schematic, whether one of the eight directions holds a symbol |
| EngineSchematic.AroundComplete | prob3/src/main.rs:133-142 | the eight directions cover every offset around a cell |
| EngineSchematic.AdjacentMeaning | prob3/src/main.rs:128-151 | `is_adjacent_to_symbol` is true exactly when some cell at most one row and column away, other than the cell itself, holds a symbol |
| EngineSchematic.AdjacentExampleLeft | prob3/src/main.rs:244-248 | in the source's test, the 1 is not next to a symbol |
| EngineSchematic.AdjacentExampleMiddle | prob3/src/main.rs:244-249 | in the source's test, the 2 is next to a symbol |
| EngineSchematic.AdjacentExampleRight | prob3/src/main.rs:244-250 | in the source's test, the 3 is next to a symbol |
| EngineSchematic.RunEnd | prob3/src/main.rs:55-64 | the digits starting at k end at the first non-digit or at the end of the row |
| EngineSchematic.RunsFromAreRuns | prob3/src/main.rs:55-71 | the runs cut from a row are non-empty, all digits, cannot be extended to the right, lie in left-to-right order and are maximal |
| EngineSchematic.RunsComplete | prob3/src/main.rs:55-71 | every maximal run of digits is cut from the row |
| EngineSchematic.KeptSound | prob3/src/main.rs:64-67 | every kept number is the non-zero value of a run that touches a symbol |
| EngineSchematic.KeptComplete | prob3/src/main.rs:64-67 | every run with a non-zero value that touches a symbol is kept |
| EngineSchematic.RowPartsMeaning | prob3/src/main.rs:45-48 | a row's part numbers are exactly the non-zero values of its maximal digit runs that touch a symbol |
| EngineSchematic.PartNumbersExample | prob3/src/main.rs:253-257 | the source's test schematic has the single part number 123 |
| EngineSchematic.ScanDigit | prob3/src/main.rs:56-63 | a digit extends the open run: value times ten plus the digit; marked once the digit touches a symbol |
| EngineSchematic.ScanClose | prob3/src/main.rs:64-70 | closing the run at a non-digit or at the end of the row keeps its value exactly when it touches a symbol and is not 0, then resets |
| EngineSchematic.ScanColumn | prob3/src/main.rs:55-71 | one column of the inner loop keeps the scan invariant: numbers so far are those of the runs closed so far |
| EngineSchematic.ScanRow | prob3/src/main.rs:52-71 | the inner loop returns the part numbers of the row |
| EngineSchematic.GetPartNumbers | prob3/src/main.rs:48-75 | the outer loop returns the part numbers of every row, in row order |
| EngineSchematic.Part1 | prob3/src/main.rs:164-168 | `part1` is the sum of the part numbers of the schematic |
| EngineSchematic.ColumnAsWritten | prob3/src/main.rs:55-71 | one column of the inner loop exactly as written; any number it reports is positive |
| EngineSchematic.ScanAsWritten | prob3/src/main.rs:55-71 | the inner loop exactly as written; every number it reports is positive |
| EngineSchematic.ZeroTouchesStar | prob3/src/main.rs:128-151 | in `*0.5` the 0 is next to the star |
| EngineSchematic.ZeroRunLeaks | prob3/src/main.rs:64-70 | on `*0.5` the loop as written reports 5, which touches no symbol |
| EngineSchematic.ZeroRunCorrected | prob3/src/main.rs:45-48 | `*0.5` has no part number |
| EngineSchematic.ClosedRunNotZero | prob3/src/main.rs:64 | in a row with no run worth 0, every run closed is worth more than 0, so the `number > 0` guard holds when a run closes |
| EngineSchematic.AsWrittenFrom | prob3/src/main.rs:55-71 | in a row with no run worth 0, the loop as written reports the same numbers as the scan |
| EngineSchematic.AsWrittenRow | prob3/src/main.rs:52-71 | in a row with no run worth 0, the loop as written gives the row's part numbers |
| EngineSchematic.AsWrittenWithoutZeroRuns | prob3/src/main.rs:48-75 | when no run in the schematic is worth 0, `get_part_numbers` as written is correct |

## Left out

- Reading the input file, `main` and printing are not modelled. The input is a sequence of lines, so `str::lines()` is not modelled either.
- Characters are Dafny `char`s, and every length in the model counts characters. prob10 and prob16 index rows by `char` and take their widths as `char` counts.
- EngineSchematic.FromStr: the source takes the width as `rows[0].len()` (prob3/src/main.rs:37), a count of bytes, while `get_char` and `get_part_numbers` walk each row by `char` (prob3/src/main.rs:55, 119-121). The model takes the width as a count of characters, so it agrees with the source on ASCII schematics only. Multi-byte text, where the two counts differ, is not modelled.
- Integer widths are not modelled: `u32` and `usize` become `nat`. An overflow of a part number or of a count cannot happen in the model.
- The `part2` functions of prob3 and prob16 always return 0; they are not modelled.
- The puzzle tests that read `part_1_test.txt`, `part_2_test.txt` and `test.txt` are not part of this model, because those input files are not part of it. They cover prob3:181-184, prob10:360-402 and prob16:248-251. Every test with an inline input is modelled as a lemma: the `...Example`, `...Examples` and `...Parses` rows of the table.
- PipeMaze.Exit: `connects_to` returns a `HashSet`, and `.difference().next()` takes an element in hash order. When the pipe is entered from a side it does not connect to, the model takes the first listed connection; the source may take either. GetNextNode, Walk, Track, Part1 and Part2 inherit that choice. On such an entry their results are those of the first-listed connection, so they can differ from the source. An example is a `|` pipe entered from the West with ground above it and the bottom edge below it: the model moves North onto the ground and gives `InvalidNextNode`, while the source may move South and give `InvalidNextCoordinate`. When a pipe is entered through one of its connections the choice does not arise: NextNodeLeavesByOtherEnd states the step for that case (OffConnectionExample shows the example above).
- PipeMaze.GetNextNode: moving North from row 0 or West from column 0 underflows the `usize` in the source. The model reports the `InvalidNextCoordinate` error that the bounds check gives once the value has wrapped. A debug build of the source panics instead.
- PipeMaze.GetNextNode: the "no next direction" error is unreachable, because every pipe has two connections, so it is not modelled.
- PipeMaze.ParseMap: the source reads `nodes[0]` unconditionally and panics on empty input. The model requires at least one line.
- PipeMaze.Part1, PipeMaze.Part2: the loops of the source have no bound and run forever when the walk never closes. The model takes a ghost step bound `n`; its precondition says the walk ends, fails or closes within `n` steps. Walks that never end are not modelled.
- PipeMaze.Part1, PipeMaze.Part2: the source's `?` on a malformed grid is modelled, but ragged grids are excluded by precondition. On a ragged grid, `nodes[row][col]` in the source can panic.
- PipeMaze.CountInternalTiles: the source says it relies on the start being a vertical pipe in the author's input. The model keeps that choice. It proves what the scan counts, not that the count equals the geometrically enclosed area.
- LightBeams.SendBeam: `beam` returns a `Result` that is always `Ok`, so the model returns the number directly. The queue is a `seq` and the set of beams taken is a `set`.
- LightBeams.Part1: the source indexes `grid[0][0]` and computes `grid[0].len() - 1`, so it panics on an empty grid or an empty first row. On ragged rows it can index out of bounds. The model requires a rectangular grid with a non-empty first row.
- LightBeams.Propagate: the bound on the number of expansions is ghost; the source has no counter.
- The commented-out debug print in `beam` (prob16:145-157) is not modelled.
- EngineSchematic.GetPartNumbers, EngineSchematic.Part1: these require a rectangular schematic with a non-empty first line. On such a schematic the `?` on `get_char` cannot fail (GetCharRectangular). The error path of a ragged schematic is modelled in GetChar and SymbolAround but is not carried through the loops. `to_digit(10)` cannot fail on an ASCII digit, so `InvalidDigit` is not modelled.
- EngineSchematic.GetPartNumbers: this models the corrected loop (see Findings). The loop as written is ColumnAsWritten and ScanAsWritten.

## Findings

| source | as written | input that shows it | evidently intended | confidence | as-written member | corrected member |
|---|---|---|---|---|---|---|
| prob3/src/main.rs:64-70 | a run closes only when `number > 0`, so a run worth 0 (such as `0` or `00`) is never closed, and its `is_part_number` flag carries into the next run on the row | `*0.5` (the 0 touches the star, the 5 touches nothing) gives `[5]` | each maximal digit run is judged on its own: `*0.5` has no part numbers | not executed | EngineSchematic.ZeroRunLeaks | EngineSchematic.GetPartNumbers |

The corrected scan closes every run at the first non-digit or at the end of
the row, whatever its value. It keeps the value when the value is not 0 and
the run touches a symbol, so a run worth 0 is still never reported.
RowPartsMeaning states that property. GetPartNumbers is proved to return
exactly those numbers, and ZeroRunCorrected shows that the counterexample
then has no part numbers. AsWrittenWithoutZeroRuns shows the bug needs a run
worth 0: without one, the loop as written and the corrected loop agree.
