/** The engine schematic of prob3/src/main.rs: a grid of characters in which a
    maximal run of digits is a part number when one of its digits has a
    symbol (any character other than a digit or '.') among its eight
    neighbours. Part 1 is the sum of the part numbers. */
module EngineSchematic {
  import opened Wrappers

  // ---------------------------------------------------------------------------
  // Characters

  predicate IsDigit(c: char) {
    '0' <= c <= '9'
  }

  /** `is_symbol`: neither an ASCII digit nor a dot. */
  predicate IsSymbol(c: char) {
    !IsDigit(c) && c != '.'
  }

  /** The cases the source's own test names. */
  lemma SymbolExamples()
    ensures IsSymbol('#') && IsSymbol('*') && IsSymbol('$')
    ensures !IsSymbol('.') && !IsSymbol('7')
  {
  }

  /** `to_digit(10)` of an ASCII digit. */
  function DigitValue(c: char): (r: nat)
    requires IsDigit(c)
    ensures r <= 9
  {
    (c as int) - ('0' as int)
  }

  /** The decimal value of the digits row[a..b], read left to right as the
      accumulator `number * 10 + digit` reads them. */
  function ValueOf(row: string, a: nat, b: nat): nat
    requires a <= b <= |row|
    requires forall t :: a <= t < b ==> IsDigit(row[t])
    decreases b - a
  {
    if a == b then 0 else ValueOf(row, a, b - 1) * 10 + DigitValue(row[b - 1])
  }

  /** A run of digits is worth 0 exactly when every digit in it is '0'. */
  lemma {:induction false} ValueZero(row: string, a: nat, b: nat)
    requires a <= b <= |row|
    requires forall t :: a <= t < b ==> IsDigit(row[t])
    ensures ValueOf(row, a, b) == 0 <==> AllZeros(row, Run(a, b))
    decreases b - a
  {
    if a < b {
      ValueZero(row, a, b - 1);
    }
  }

  // ---------------------------------------------------------------------------
  // The schematic

  /** The lines of the input, with the width of the first line and the
      number of lines. */
  datatype Schematic = Schematic(rows: seq<string>, width: nat, height: nat) {

    /** What `from_str` sets up, with a non-empty first line: the guards in
        `get_char` and the end-of-row test compute `width - 1`. */
    ghost predicate Valid() {
      height == |rows| && 1 <= height && width == |rows[0]| && 1 <= width
    }

    /** Every line is as long as the first. */
    ghost predicate Rectangular() {
      Valid() && forall i :: 0 <= i < |rows| ==> |rows[i]| == width
    }

    predicate Inside(x: int, y: int) {
      0 <= x < height && 0 <= y < width
    }
  }

  /** `from_str`: the lines as they are; the height is their number and the
      width is the length of the first. */
  function FromStr(lines: seq<string>): (s: Schematic)
    requires |lines| >= 1
    ensures s.rows == lines && s.height == |lines| && s.width == |lines[0]|
    ensures s.Valid() <==> |lines[0]| >= 1
  {
    Schematic(lines, |lines[0]|, |lines|)
  }

  lemma FromStrExample()
    ensures FromStr([".#.", "123", "$*#"]).rows == [".#.", "123", "$*#"]
    ensures FromStr([".#.", "123", "$*#"]).Rectangular()
  {
  }

  // ---------------------------------------------------------------------------
  // Neighbours

  datatype Direction =
    | Above | Below | Right | Left
    | AboveLeft | AboveRight | BelowLeft | BelowRight

  function DRow(d: Direction): int {
    match d
    case Above | AboveLeft | AboveRight => -1
    case Below | BelowLeft | BelowRight => 1
    case _ => 0
  }

  function DCol(d: Direction): int {
    match d
    case Left | AboveLeft | BelowLeft => -1
    case Right | AboveRight | BelowRight => 1
    case _ => 0
  }

  datatype Error = InvalidCoordinate(row: nat, col: nat)

  /** `get_char`: the character next to (row, col) in direction d. The guards
      come first, so the subtractions never go below zero; the error is the
      `nth` lookup failing, which only a line shorter than the first can
      cause. */
  function GetChar(s: Schematic, d: Direction, row: nat, col: nat): (r: Result<Option<char>, Error>)
    requires s.Valid()
    ensures r == Ok(None) <==> !s.Inside(row + DRow(d), col + DCol(d))
    ensures r.Err? <==>
      s.Inside(row + DRow(d), col + DCol(d)) && |s.rows[row + DRow(d)]| <= col + DCol(d)
    ensures r.Ok? && r.value.Some? ==> r.value.value == s.rows[row + DRow(d)][col + DCol(d)]
  {
    if (d == Above || d == AboveLeft || d == AboveRight) && row == 0 then Ok(None)
    else if (d == Below || d == BelowLeft || d == BelowRight) && row >= s.height - 1 then Ok(None)
    else if (d == Left || d == AboveLeft || d == BelowLeft) && col == 0 then Ok(None)
    else if (d == Right || d == AboveRight || d == BelowRight) && col >= s.width - 1 then Ok(None)
    else
      var x: nat := row + DRow(d);
      var y: nat := col + DCol(d);
      if x >= s.height || y >= s.width then Ok(None)
      else if y < |s.rows[x]| then Ok(Some(s.rows[x][y]))
      else Err(InvalidCoordinate(row, col))
  }

  /** On a rectangular grid the lookup never fails. */
  lemma GetCharRectangular(s: Schematic, d: Direction, row: nat, col: nat)
    requires s.Rectangular()
    ensures GetChar(s, d, row, col).Ok?
  {
  }

  lemma GetCharExamples()
    ensures var s := FromStr([".#.", "123", "$*#"]);
      && GetChar(s, Above, 0, 1) == Ok(None)
      && GetChar(s, Above, 1, 1) == Ok(Some('#'))
      && GetChar(s, Below, 1, 1) == Ok(Some('*'))
      && GetChar(s, Right, 1, 1) == Ok(Some('3'))
      && GetChar(s, Left, 1, 1) == Ok(Some('1'))
      && GetChar(s, Right, 2, 2) == Ok(None)
      && GetChar(s, Below, 2, 2) == Ok(None)
      && GetChar(s, AboveLeft, 1, 1) == Ok(Some('.'))
      && GetChar(s, BelowLeft, 1, 1) == Ok(Some('$'))
      && GetChar(s, BelowRight, 1, 1) == Ok(Some('#'))
  {
  }

  /** There is a symbol at (x, y). */
  predicate SymbolAt(s: Schematic, x: int, y: int)
    requires s.Valid()
  {
    s.Inside(x, y) && y < |s.rows[x]| && IsSymbol(s.rows[x][y])
  }

  /** The order in which `is_adjacent_to_symbol` looks around a cell. */
  const Around: seq<Direction> :=
    [Above, Below, Right, Left, AboveLeft, AboveRight, BelowLeft, BelowRight]

  /** A symbol lies one step away from (row, col) in one of the directions
      Around[k..]. */
  ghost predicate SymbolToward(s: Schematic, row: nat, col: nat, k: nat)
    requires s.Valid() && k <= |Around|
  {
    exists j :: k <= j < |Around| && SymbolAt(s, row + DRow(Around[j]), col + DCol(Around[j]))
  }

  /** Looking from the k-th direction on: the k-th, then the rest. */
  lemma SymbolTowardStep(s: Schematic, row: nat, col: nat, k: nat)
    requires s.Valid() && k < |Around|
    ensures SymbolToward(s, row, col, k)
        <==> SymbolAt(s, row + DRow(Around[k]), col + DCol(Around[k])) || SymbolToward(s, row, col, k + 1)
  {
    if SymbolAt(s, row + DRow(Around[k]), col + DCol(Around[k])) {
      assert k <= k < |Around|;
    }
  }

  /** The loop of `is_adjacent_to_symbol` from the k-th direction on: the
      first symbol found answers true, the first failed lookup is passed on. */
  function SymbolAround(s: Schematic, row: nat, col: nat, k: nat): (r: Result<bool, Error>)
    requires s.Valid() && k <= |Around|
    ensures s.Rectangular() ==> r == Ok(SymbolToward(s, row, col, k))
    decreases |Around| - k
  {
    if k == |Around| then Ok(false)
    else
      SymbolTowardStep(s, row, col, k);
      var c :- GetChar(s, Around[k], row, col);
      if c.Some? && IsSymbol(c.value) then Ok(true)
      else SymbolAround(s, row, col, k + 1)
  }

  /** `is_adjacent_to_symbol`. */
  function IsAdjacentToSymbol(s: Schematic, row: nat, col: nat): (r: Result<bool, Error>)
    requires s.Valid()
    ensures s.Rectangular() ==> r == Ok(SymbolToward(s, row, col, 0))
  {
    SymbolAround(s, row, col, 0)
  }

  /** A symbol in one of the eight cells around (row, col). */
  ghost predicate NextToSymbol(s: Schematic, row: nat, col: nat)
    requires s.Valid()
  {
    exists x: int, y: int ::
      && SymbolAt(s, x, y)
      && -1 <= x - row <= 1 && -1 <= y - col <= 1
      && (x != row || y != col)
  }

  /** The eight directions are the eight offsets around a cell. */
  lemma AroundComplete(dr: int, dc: int) returns (j: nat)
    requires -1 <= dr <= 1 && -1 <= dc <= 1 && (dr != 0 || dc != 0)
    ensures j < |Around| && DRow(Around[j]) == dr && DCol(Around[j]) == dc
  {
    if dr == -1 {
      j := if dc == -1 then 4 else if dc == 0 then 0 else 5;
    } else if dr == 0 {
      j := if dc == -1 then 3 else 2;
    } else {
      j := if dc == -1 then 6 else if dc == 0 then 1 else 7;
    }
  }

  /** On a rectangular grid `is_adjacent_to_symbol` answers whether one of the
      eight neighbours of the cell lies on the grid and holds a symbol. */
  lemma AdjacentMeaning(s: Schematic, row: nat, col: nat)
    requires s.Rectangular()
    ensures IsAdjacentToSymbol(s, row, col) == Ok(NextToSymbol(s, row, col))
  {
    if NextToSymbol(s, row, col) {
      var x: int, y: int :|
        && SymbolAt(s, x, y)
        && -1 <= x - row <= 1 && -1 <= y - col <= 1
        && (x != row || y != col);
      var j := AroundComplete(x - row, y - col);
      assert SymbolAt(s, row + DRow(Around[j]), col + DCol(Around[j]));
    }
    if SymbolToward(s, row, col, 0) {
      var j :| 0 <= j < |Around| && SymbolAt(s, row + DRow(Around[j]), col + DCol(Around[j]));
      assert -1 <= DRow(Around[j]) <= 1 && -1 <= DCol(Around[j]) <= 1;
      assert DRow(Around[j]) != 0 || DCol(Around[j]) != 0;
    }
  }

  /** The cases the source's own test names, on "...", "123", "..#". */
  lemma AdjacentExampleLeft()
    ensures IsAdjacentToSymbol(FromStr(["...", "123", "..#"]), 1, 0) == Ok(false)
  {
  }

  lemma AdjacentExampleMiddle()
    ensures IsAdjacentToSymbol(FromStr(["...", "123", "..#"]), 1, 1) == Ok(true)
  {
    var s := FromStr(["...", "123", "..#"]);
    assert s.Rectangular();
    assert SymbolAt(s, 1 + DRow(Around[7]), 1 + DCol(Around[7]));
  }

  lemma AdjacentExampleRight()
    ensures IsAdjacentToSymbol(FromStr(["...", "123", "..#"]), 1, 2) == Ok(true)
  {
    var s := FromStr(["...", "123", "..#"]);
    assert s.Rectangular();
    assert SymbolAt(s, 1 + DRow(Around[1]), 2 + DCol(Around[1]));
  }

  // ---------------------------------------------------------------------------
  // Runs of digits

  /** row[run.start..run.end]. */
  datatype Run = Run(start: nat, end: nat)

  /** Every digit of the run is '0'. */
  predicate AllZeros(row: string, run: Run) {
    forall t :: run.start <= t < run.end && t < |row| ==> row[t] == '0'
  }

  /** The run lies within the row and holds only digits. */
  predicate Digits(row: string, run: Run) {
    run.start <= run.end <= |row| && forall t :: run.start <= t < run.end ==> IsDigit(row[t])
  }

  /** A non-empty run of digits that cannot be extended to the right. */
  predicate EndsRun(row: string, run: Run) {
    && Digits(row, run)
    && run.start < run.end
    && (run.end == |row| || !IsDigit(row[run.end]))
  }

  /** A run of digits that cannot be extended on either side. */
  predicate Maximal(row: string, run: Run) {
    EndsRun(row, run) && (run.start == 0 || !IsDigit(row[run.start - 1]))
  }

  /** Where the digits starting at k end. */
  function RunEnd(row: string, k: nat): (e: nat)
    requires k <= |row|
    ensures k <= e <= |row|
    ensures forall t :: k <= t < e ==> IsDigit(row[t])
    ensures e == |row| || !IsDigit(row[e])
    decreases |row| - k
  {
    if k < |row| && IsDigit(row[k]) then RunEnd(row, k + 1) else k
  }

  /** The runs of digits from column k on, left to right. */
  function RunsFrom(row: string, k: nat): seq<Run>
    requires k <= |row|
    decreases |row| - k
  {
    if k == |row| then []
    else if !IsDigit(row[k]) then RunsFrom(row, k + 1)
    else
      var e := RunEnd(row, k);
      [Run(k, e)] + RunsFrom(row, e)
  }

  /** The runs listed are runs of digits that end at a non-digit or at the
      end of the row, in order and apart; from column 0, or from any column
      after a non-digit, they are maximal. */
  lemma {:induction false} RunsFromAreRuns(row: string, k: nat)
    requires k <= |row|
    ensures var r := RunsFrom(row, k);
      && (forall u :: u in r ==> EndsRun(row, u) && k <= u.start)
      && (forall m :: 0 < m < |r| ==> r[m - 1].end < r[m].start)
      && ((k == 0 || !IsDigit(row[k - 1])) ==> forall u :: u in r ==> Maximal(row, u))
    decreases |row| - k
  {
    if k == |row| {
    } else if !IsDigit(row[k]) {
      RunsFromAreRuns(row, k + 1);
      assert RunsFrom(row, k) == RunsFrom(row, k + 1);
    } else {
      var e := RunEnd(row, k);
      var rest := RunsFrom(row, e);
      assert RunsFrom(row, k) == [Run(k, e)] + rest;
      if e < |row| {
        // the column at e is no digit, so the runs after it are maximal
        RunsFromAreRuns(row, e + 1);
        assert rest == RunsFrom(row, e + 1);
      }
    }
  }

  /** Every maximal run from column k on is listed. */
  lemma {:induction false} RunsComplete(row: string, k: nat, run: Run)
    requires k <= run.start && Maximal(row, run)
    ensures run in RunsFrom(row, k)
    decreases |row| - k
  {
    if k == run.start {
      RunEndAt(row, k, run.end);
    } else if !IsDigit(row[k]) {
      RunsComplete(row, k + 1, run);
    } else {
      // the digits from k on stop before the maximal run starts
      var e := RunEnd(row, k);
      assert e < run.start;
      RunsComplete(row, e, run);
    }
  }

  /** The run of digits at k ends at the first column that is no digit. */
  lemma {:induction false} RunEndAt(row: string, k: nat, e: nat)
    requires k <= e <= |row|
    requires forall t :: k <= t < e ==> IsDigit(row[t])
    requires e == |row| || !IsDigit(row[e])
    ensures RunEnd(row, k) == e
    decreases e - k
  {
    if k < e {
      RunEndAt(row, k + 1, e);
    }
  }

  /** A run closed by a non-digit at column j. */
  lemma RunClosedAt(row: string, start: nat, j: nat)
    requires start < j < |row|
    requires forall t :: start <= t < j ==> IsDigit(row[t])
    requires !IsDigit(row[j])
    ensures RunsFrom(row, start) == [Run(start, j)] + RunsFrom(row, j + 1)
  {
    RunEndAt(row, start, j);
  }

  /** A run closed by the end of the row. */
  lemma RunClosedAtEnd(row: string, start: nat)
    requires start < |row|
    requires forall t :: start <= t < |row| ==> IsDigit(row[t])
    ensures RunsFrom(row, start) == [Run(start, |row|)]
  {
    RunEndAt(row, start, |row|);
  }

  // ---------------------------------------------------------------------------
  // Part numbers

  /** Some digit in columns [a, b) of row i is next to a symbol. */
  ghost predicate Touches(s: Schematic, i: nat, a: nat, b: nat)
    requires s.Valid()
  {
    exists t :: a <= t < b && NextToSymbol(s, i, t)
  }

  lemma TouchesOneMore(s: Schematic, i: nat, a: nat, b: nat)
    requires s.Valid() && a <= b
    ensures Touches(s, i, a, b + 1) <==> Touches(s, i, a, b) || NextToSymbol(s, i, b)
  {
    if Touches(s, i, a, b + 1) && !NextToSymbol(s, i, b) {
      var t :| a <= t < b + 1 && NextToSymbol(s, i, t);
      assert t < b;
    }
  }

  /** The values of those runs of row i that touch a symbol and are not 0,
      in the order of the runs. */
  ghost function Kept(s: Schematic, i: nat, runs: seq<Run>): (r: seq<nat>)
    requires s.Valid() && i < s.height
    requires forall u :: u in runs ==> Digits(s.rows[i], u)
    ensures |r| <= |runs|
    ensures forall n :: n in r ==> n > 0
  {
    if runs == [] then []
    else
      var run := runs[|runs| - 1];
      assert run in runs;
      assert Digits(s.rows[i], run);
      var n := ValueOf(s.rows[i], run.start, run.end);
      Kept(s, i, runs[..|runs| - 1]) + (if n > 0 && Touches(s, i, run.start, run.end) then [n] else [])
  }

  /** The part numbers of row i. */
  ghost function RowParts(s: Schematic, i: nat): seq<nat>
    requires s.Valid() && i < s.height
  {
    RunsFromAreRuns(s.rows[i], 0);
    Kept(s, i, RunsFrom(s.rows[i], 0))
  }

  /** The part numbers of the first n rows, row by row. */
  ghost function PartsUpTo(s: Schematic, n: nat): seq<nat>
    requires s.Valid() && n <= s.height
  {
    if n == 0 then [] else PartsUpTo(s, n - 1) + RowParts(s, n - 1)
  }

  /** The part numbers of the schematic, in row-major order of their runs. */
  ghost function PartNumbers(s: Schematic): seq<nat>
    requires s.Valid()
  {
    PartsUpTo(s, s.height)
  }

  /** Every number kept is the non-zero value of one of the runs, and that
      run touches a symbol. */
  lemma {:induction false} KeptSound(s: Schematic, i: nat, runs: seq<Run>, n: nat)
    requires s.Valid() && i < s.height
    requires forall u :: u in runs ==> Digits(s.rows[i], u)
    requires n in Kept(s, i, runs)
    ensures exists run :: (run in runs && n == ValueOf(s.rows[i], run.start, run.end) > 0
      && Touches(s, i, run.start, run.end))
  {
    var run := runs[|runs| - 1];
    if n !in Kept(s, i, runs[..|runs| - 1]) {
      assert run in runs;
    } else {
      KeptSound(s, i, runs[..|runs| - 1], n);
      var r :| r in runs[..|runs| - 1] && n == ValueOf(s.rows[i], r.start, r.end) > 0
        && Touches(s, i, r.start, r.end);
      assert r in runs;
    }
  }

  /** The value of every listed run that touches a symbol and is not 0 is
      kept. */
  lemma {:induction false} KeptComplete(s: Schematic, i: nat, runs: seq<Run>, run: Run)
    requires s.Valid() && i < s.height
    requires forall u :: u in runs ==> Digits(s.rows[i], u)
    requires run in runs && Digits(s.rows[i], run)
    requires ValueOf(s.rows[i], run.start, run.end) > 0 && Touches(s, i, run.start, run.end)
    ensures ValueOf(s.rows[i], run.start, run.end) in Kept(s, i, runs)
  {
    if run != runs[|runs| - 1] {
      assert run in runs[..|runs| - 1];
      KeptComplete(s, i, runs[..|runs| - 1], run);
    }
  }

  /** A number is a part number of row i exactly when it is the non-zero value
      of a maximal run of digits in that row with a digit next to a
      symbol. */
  lemma RowPartsMeaning(s: Schematic, i: nat, n: nat)
    requires s.Valid() && i < s.height
    ensures n in RowParts(s, i) <==>
      exists run :: (Maximal(s.rows[i], run) && n == ValueOf(s.rows[i], run.start, run.end) > 0
        && Touches(s, i, run.start, run.end))
  {
    var row := s.rows[i];
    var runs := RunsFrom(row, 0);
    RunsFromAreRuns(row, 0);
    if n in RowParts(s, i) {
      KeptSound(s, i, runs, n);
    }
    if exists run :: Maximal(row, run) && n == ValueOf(row, run.start, run.end) > 0
        && Touches(s, i, run.start, run.end) {
      var run :| Maximal(row, run) && n == ValueOf(row, run.start, run.end) > 0
        && Touches(s, i, run.start, run.end);
      RunsComplete(row, 0, run);
      KeptComplete(s, i, runs, run);
    }
  }

  /** A row without digits has no runs. */
  lemma {:induction false} NoRuns(row: string, k: nat)
    requires k <= |row|
    requires forall t :: k <= t < |row| ==> !IsDigit(row[t])
    ensures RunsFrom(row, k) == []
    decreases |row| - k
  {
    if k < |row| {
      NoRuns(row, k + 1);
    }
  }

  /** The schematic of the source's test of `get_part_numbers`. */
  const ExampleRows: seq<string> := [".#.", "123", "..#", "...", "456"]

  /** The 1 of 123 has the '#' above it. */
  lemma ExampleTouched()
    ensures Touches(FromStr(ExampleRows), 1, 0, 3)
  {
    var s := FromStr(ExampleRows);
    assert SymbolAt(s, 0, 1);
    assert NextToSymbol(s, 1, 0);
  }

  /** Nothing around 456 is a symbol. */
  lemma ExampleUntouched()
    ensures !Touches(FromStr(ExampleRows), 4, 0, 3)
  {
    var s := FromStr(ExampleRows);
    forall x: int, y: int | 3 <= x
      ensures !SymbolAt(s, x, y)
    {
      if s.Inside(x, y) {
        assert x == 3 || x == 4;
      }
    }
  }

  /** The source's test: only 123 touches a symbol. */
  lemma PartNumbersExample()
    ensures PartNumbers(FromStr(ExampleRows)) == [123]
  {
    var s := FromStr(ExampleRows);
    NoRuns(s.rows[0], 0);
    NoRuns(s.rows[2], 0);
    NoRuns(s.rows[3], 0);
    RunClosedAtEnd(s.rows[1], 0);
    RunClosedAtEnd(s.rows[4], 0);
    ExampleTouched();
    ExampleUntouched();
    assert ValueOf(s.rows[1], 0, 3) == 123;
    assert RowParts(s, 0) == [];
    assert RowParts(s, 1) == [123];
    assert RowParts(s, 2) == [] && RowParts(s, 3) == [] && RowParts(s, 4) == [];
    assert PartsUpTo(s, 1) == [];
    assert PartsUpTo(s, 2) == [123];
    assert PartsUpTo(s, 3) == [123];
    assert PartsUpTo(s, 4) == [123];
  }

  // ---------------------------------------------------------------------------
  // The scan

  /** Appending one run appends its value when it is kept. */
  lemma KeptOneMore(s: Schematic, i: nat, runs: seq<Run>, run: Run)
    requires s.Valid() && i < s.height
    requires forall u :: u in runs ==> Digits(s.rows[i], u)
    requires Digits(s.rows[i], run)
    ensures forall u :: u in runs + [run] ==> Digits(s.rows[i], u)
    ensures var n := ValueOf(s.rows[i], run.start, run.end);
      Kept(s, i, runs + [run]) ==
        Kept(s, i, runs) + if n > 0 && Touches(s, i, run.start, run.end) then [n] else []
  {
    assert (runs + [run])[..|runs|] == runs;
  }

  /** What the scan of row i knows at column j: the runs before the current
      one are closed, the current one started at column start, and the
      accumulators hold its value and whether it touches a symbol so far. */
  ghost predicate ScanState(s: Schematic, i: nat, j: nat, start: nat, closed: seq<Run>,
                            number: nat, isPartNumber: bool)
    requires s.Rectangular() && i < s.height
  {
    var row := s.rows[i];
    && start <= j <= |row|
    && (forall t :: start <= t < j ==> IsDigit(row[t]))
    && number == ValueOf(row, start, j)
    && isPartNumber == Touches(s, i, start, j)
    && (forall u :: u in closed ==> Digits(row, u))
    && RunsFrom(row, 0) == closed + RunsFrom(row, start)
  }

  lemma ScanAtStart(s: Schematic, i: nat)
    requires s.Rectangular() && i < s.height
    ensures ScanState(s, i, 0, 0, [], 0, false)
  {
  }

  /** A digit extends the current run. */
  lemma ScanDigit(s: Schematic, i: nat, j: nat, start: nat, closed: seq<Run>,
                  number: nat, isPartNumber: bool)
    requires s.Rectangular() && i < s.height
    requires ScanState(s, i, j, start, closed, number, isPartNumber)
    requires j < |s.rows[i]| && IsDigit(s.rows[i][j])
    ensures ScanState(s, i, j + 1, start, closed, number * 10 + DigitValue(s.rows[i][j]),
                      isPartNumber || IsAdjacentToSymbol(s, i, j).value)
  {
    TouchesOneMore(s, i, start, j);
    AdjacentMeaning(s, i, j);
  }

  /** The current run, if any, ends at column end, where a non-digit or the
      end of the row follows; its value is kept when it touches a symbol and
      is not 0, and the scan goes on past column end. */
  lemma ScanClose(s: Schematic, i: nat, end: nat, start: nat, closed: seq<Run>,
                  number: nat, isPartNumber: bool)
    returns (closed': seq<Run>)
    requires s.Rectangular() && i < s.height
    requires ScanState(s, i, end, start, closed, number, isPartNumber)
    requires end == |s.rows[i]| || !IsDigit(s.rows[i][end])
    ensures closed' == if start < end then closed + [Run(start, end)] else closed
    ensures var next := if end == |s.rows[i]| then end else end + 1;
      ScanState(s, i, next, next, closed', 0, false)
    ensures Kept(s, i, closed') == Kept(s, i, closed) + if isPartNumber && number > 0 then [number] else []
  {
    var row := s.rows[i];
    closed' := closed;
    if start < end {
      if end == |row| {
        RunClosedAtEnd(row, start);
      } else {
        RunClosedAt(row, start, end);
      }
      KeptOneMore(s, i, closed, Run(start, end));
      closed' := closed + [Run(start, end)];
    }
  }

  /** At the end of the row every run is closed. */
  lemma ScanDone(s: Schematic, i: nat, closed: seq<Run>)
    requires s.Rectangular() && i < s.height
    requires ScanState(s, i, |s.rows[i]|, |s.rows[i]|, closed, 0, false)
    ensures Kept(s, i, closed) == RowParts(s, i)
  {
    assert closed + [] == closed;
  }

  /** One column of the inner loop of `get_part_numbers`: a digit extends the
      current number, and a non-digit or the last column closes it, keeping
      it when it touches a symbol and is not 0. */
  method ScanColumn(s: Schematic, i: nat, j: nat, number: nat, isPartNumber: bool,
                    partNumbers: seq<nat>, ghost start: nat, ghost closed: seq<Run>)
    returns (number': nat, isPartNumber': bool, partNumbers': seq<nat>,
             ghost start': nat, ghost closed': seq<Run>)
    requires s.Rectangular() && i < s.height && j < s.width
    requires ScanState(s, i, j, start, closed, number, isPartNumber)
    requires partNumbers == Kept(s, i, closed)
    ensures ScanState(s, i, j + 1, start', closed', number', isPartNumber')
    ensures j + 1 == s.width ==> start' == j + 1
    ensures partNumbers' == Kept(s, i, closed')
  {
    var c := s.rows[i][j];
    number', isPartNumber', partNumbers', start', closed' := number, isPartNumber, partNumbers, start, closed;
    if IsDigit(c) {
      ScanDigit(s, i, j, start, closed, number, isPartNumber);
      number' := number * 10 + DigitValue(c);
      if IsAdjacentToSymbol(s, i, j).value {
        isPartNumber' := true;
      }
    }
    if !IsDigit(c) || j == s.width - 1 {
      if IsDigit(c) {
        closed' := ScanClose(s, i, j + 1, start, closed, number', isPartNumber');
      } else {
        closed' := ScanClose(s, i, j, start, closed, number', isPartNumber');
      }
      if isPartNumber' && number' > 0 {
        partNumbers' := partNumbers + [number'];
      }
      number' := 0;
      isPartNumber' := false;
      start' := j + 1;
    }
  }

  /** One row of `get_part_numbers` (the inner loop), with a run closed at
      every non-digit and at the end of the row whatever its value; a run
      worth 0 is still left out. */
  method ScanRow(s: Schematic, i: nat) returns (partNumbers: seq<nat>)
    requires s.Rectangular() && i < s.height
    ensures partNumbers == RowParts(s, i)
  {
    partNumbers := [];
    var number: nat := 0;
    var isPartNumber := false;
    ghost var start: nat := 0;
    ghost var closed: seq<Run> := [];
    ScanAtStart(s, i);
    var j := 0;
    while j < s.width
      invariant j <= s.width
      invariant ScanState(s, i, j, start, closed, number, isPartNumber)
      invariant j == s.width ==> start == j
      invariant partNumbers == Kept(s, i, closed)
    {
      number, isPartNumber, partNumbers, start, closed :=
        ScanColumn(s, i, j, number, isPartNumber, partNumbers, start, closed);
      j := j + 1;
    }
    ScanDone(s, i, closed);
  }

  /** `get_part_numbers`: the part numbers of the rows, one row after the
      other. */
  method GetPartNumbers(s: Schematic) returns (r: Result<seq<nat>, Error>)
    requires s.Rectangular()
    ensures r == Ok(PartNumbers(s))
  {
    var partNumbers: seq<nat> := [];
    var i := 0;
    while i < |s.rows|
      invariant i <= |s.rows|
      invariant partNumbers == PartsUpTo(s, i)
    {
      var rowParts := ScanRow(s, i);
      partNumbers := partNumbers + rowParts;
      i := i + 1;
    }
    r := Ok(partNumbers);
  }

  /** The sum of a list of numbers, as `iter().sum()` computes it. */
  function Sum(ns: seq<nat>): nat {
    if ns == [] then 0 else Sum(ns[..|ns| - 1]) + ns[|ns| - 1]
  }

  /** `part1`: the sum of the part numbers of the schematic. */
  method Part1(lines: seq<string>) returns (r: Result<nat, Error>)
    requires |lines| >= 1 && |lines[0]| >= 1
    requires forall i :: 0 <= i < |lines| ==> |lines[i]| == |lines[0]|
    ensures r == Ok(Sum(PartNumbers(FromStr(lines))))
  {
    var partNumbers := GetPartNumbers(FromStr(lines));
    r := Ok(Sum(partNumbers.value));
  }

  // ---------------------------------------------------------------------------
  // The scan as written

  /** The body of the inner loop at column j of row i as prob3/src/main.rs:56-70
      writes it: the accumulators after the column and what it pushes. A run
      is closed only when its value is not 0, so a run of zeros leaves its
      flag set for the next run of the row. */
  function ColumnAsWritten(s: Schematic, i: nat, j: nat, number: nat, isPartNumber: bool)
    : (r: (nat, bool, seq<nat>))
    requires s.Rectangular() && i < s.height && j < s.width
    ensures forall n :: n in r.2 ==> n > 0
  {
    var c := s.rows[i][j];
    var number' := if IsDigit(c) then number * 10 + DigitValue(c) else number;
    var isPartNumber' := isPartNumber || (IsDigit(c) && IsAdjacentToSymbol(s, i, j).value);
    if (!IsDigit(c) || j == s.width - 1) && number' > 0 then
      (0, false, if isPartNumber' then [number'] else [])
    else
      (number', isPartNumber', [])
  }

  /** The inner loop as written, from column j on. */
  function ScanAsWritten(s: Schematic, i: nat, j: nat, number: nat, isPartNumber: bool): (r: seq<nat>)
    requires s.Rectangular() && i < s.height && j <= s.width
    ensures forall n :: n in r ==> n > 0
    decreases s.width - j
  {
    if j == s.width then []
    else
      var step := ColumnAsWritten(s, i, j, number, isPartNumber);
      step.2 + ScanAsWritten(s, i, j + 1, step.0, step.1)
  }

  /** The part numbers as the source computes them, row by row. */
  function PartNumbersAsWritten(s: Schematic, n: nat): seq<nat>
    requires s.Rectangular() && n <= s.height
  {
    if n == 0 then [] else PartNumbersAsWritten(s, n - 1) + ScanAsWritten(s, n - 1, 0, 0, false)
  }

  /** In "*0.5" the 0 is next to the star. */
  lemma ZeroTouchesStar()
    ensures IsAdjacentToSymbol(FromStr(["*0.5"]), 0, 1) == Ok(true)
  {
    var s := FromStr(["*0.5"]);
    assert GetChar(s, Left, 0, 1) == Ok(Some('*'));
  }

  /** "*0.5": the 0 touches the star and the 5 touches nothing, yet the scan
      as written reports 5. */
  lemma ZeroRunLeaks()
    ensures PartNumbersAsWritten(FromStr(["*0.5"]), 1) == [5]
  {
    var s := FromStr(["*0.5"]);
    assert s.rows[0] == "*0.5" && s.width == 4;
    ScanAsWrittenLast(s, 0, 3, 0, true);
    assert ScanAsWritten(s, 0, 3, 0, true) == [5];
    ColumnAsWrittenGap(s, 0, 2, 0, true);
    assert ScanAsWritten(s, 0, 2, 0, true) == [5];
    ZeroTouchesStar();
    ColumnAsWrittenDigit(s, 0, 1, 0, false);
    assert ScanAsWritten(s, 0, 1, 0, false) == [5];
    ScanAsWrittenGap(s, 0, 0, 0, false);
    assert ScanAsWritten(s, 0, 0, 0, false) == [5];
  }

  /** "*0.5" has no part number: the run "0" is worth 0 and the run "5"
      touches no symbol. */
  lemma ZeroRunCorrected()
    ensures PartNumbers(FromStr(["*0.5"])) == []
  {
    var s := FromStr(["*0.5"]);
    var row := s.rows[0];
    assert RunsFrom(row, 0) == [Run(1, 2), Run(3, 4)] by {
      RunClosedAt(row, 1, 2);
      RunClosedAtEnd(row, 3);
    }
    assert ValueOf(row, 1, 2) == 0;
    assert Kept(s, 0, [Run(1, 2)]) == [];
    assert IsAdjacentToSymbol(s, 0, 3) == Ok(false);
    AdjacentMeaning(s, 0, 3);
    assert !Touches(s, 0, 3, 4);
    assert [Run(1, 2), Run(3, 4)][..1] == [Run(1, 2)];
    assert RowParts(s, 0) == [];
  }

  /** Without a run worth 0 in row i, the scan as written from column j on
      does what the corrected scan does. */
  lemma {:induction false} AsWrittenFrom(s: Schematic, i: nat, j: nat, start: nat, closed: seq<Run>,
                                         number: nat, isPartNumber: bool)
    requires s.Rectangular() && i < s.height
    requires ScanState(s, i, j, start, closed, number, isPartNumber)
    requires j == s.width ==> start == j
    requires forall u :: u in RunsFrom(s.rows[i], 0) ==> !AllZeros(s.rows[i], u)
    ensures Kept(s, i, closed) + ScanAsWritten(s, i, j, number, isPartNumber) == RowParts(s, i)
    decreases s.width - j, 1
  {
    if j == s.width {
      ScanDone(s, i, closed);
      assert Kept(s, i, closed) + [] == Kept(s, i, closed);
    } else if !IsDigit(s.rows[i][j]) {
      AsWrittenGap(s, i, j, start, closed, number, isPartNumber);
    } else if j == s.width - 1 {
      AsWrittenLastDigit(s, i, j, start, closed, number, isPartNumber);
    } else {
      AsWrittenDigit(s, i, j, start, closed, number, isPartNumber);
    }
  }

  /** The column step as written over a digit before the last column. */
  lemma ColumnAsWrittenDigit(s: Schematic, i: nat, j: nat, number: nat, isPartNumber: bool)
    requires s.Rectangular() && i < s.height
    requires j < s.width - 1 && IsDigit(s.rows[i][j])
    ensures var r := ColumnAsWritten(s, i, j, number, isPartNumber);
      && r.0 == number * 10 + DigitValue(s.rows[i][j])
      && r.1 == (isPartNumber || IsAdjacentToSymbol(s, i, j).value)
      && r.2 == []
  {
  }

  /** The column step as written over a digit in the last column, when the
      run is not worth 0. */
  lemma ColumnAsWrittenLast(s: Schematic, i: nat, j: nat, number: nat, isPartNumber: bool)
    requires s.Rectangular() && i < s.height
    requires j == s.width - 1 && IsDigit(s.rows[i][j])
    requires number * 10 + DigitValue(s.rows[i][j]) > 0
    ensures var r := ColumnAsWritten(s, i, j, number, isPartNumber);
      var isPartNumber' := isPartNumber || IsAdjacentToSymbol(s, i, j).value;
      && r.0 == 0 && !r.1
      && r.2 == if isPartNumber' then [number * 10 + DigitValue(s.rows[i][j])] else []
  {
  }

  /** The column step as written over a non-digit: it closes a run only when
      the run is not worth 0. */
  lemma ColumnAsWrittenGap(s: Schematic, i: nat, j: nat, number: nat, isPartNumber: bool)
    requires s.Rectangular() && i < s.height
    requires j < s.width && !IsDigit(s.rows[i][j])
    ensures var r := ColumnAsWritten(s, i, j, number, isPartNumber);
      && r.0 == 0
      && r.1 == (number == 0 && isPartNumber)
      && r.2 == if number > 0 && isPartNumber then [number] else []
  {
  }

  /** Without a run worth 0 in the row, the run the scan closes at `end` is
      worth more than 0, and an empty one touches nothing. */
  lemma ClosedRunNotZero(s: Schematic, i: nat, end: nat, start: nat, closed: seq<Run>,
                         number: nat, isPartNumber: bool)
    requires s.Rectangular() && i < s.height
    requires ScanState(s, i, end, start, closed, number, isPartNumber)
    requires forall u :: u in RunsFrom(s.rows[i], 0) ==> !AllZeros(s.rows[i], u)
    requires end == |s.rows[i]| || !IsDigit(s.rows[i][end])
    ensures start < end ==> number > 0
    ensures number == 0 ==> !isPartNumber
  {
    var row := s.rows[i];
    if start < end {
      if end == |row| {
        RunClosedAtEnd(row, start);
      } else {
        RunClosedAt(row, start, end);
      }
      assert Run(start, end) in RunsFrom(row, 0);
      ValueZero(row, start, end);
    }
  }

  /** The scan as written from a non-digit on: the value just closed, if it
      is kept, then the scan from the next column with nothing open. */
  lemma ScanAsWrittenGap(s: Schematic, i: nat, j: nat, number: nat, isPartNumber: bool)
    requires s.Rectangular() && i < s.height
    requires j < s.width && !IsDigit(s.rows[i][j])
    requires number == 0 ==> !isPartNumber
    ensures ScanAsWritten(s, i, j, number, isPartNumber)
         == (if isPartNumber && number > 0 then [number] else []) + ScanAsWritten(s, i, j + 1, 0, false)
  {
    ColumnAsWrittenGap(s, i, j, number, isPartNumber);
  }

  /** The scan as written from a digit in the last column, when the run is
      not worth 0: just that run, if it is kept. */
  lemma ScanAsWrittenLast(s: Schematic, i: nat, j: nat, number: nat, isPartNumber: bool)
    requires s.Rectangular() && i < s.height
    requires j == s.width - 1 && IsDigit(s.rows[i][j])
    requires number * 10 + DigitValue(s.rows[i][j]) > 0
    ensures var isPartNumber' := isPartNumber || IsAdjacentToSymbol(s, i, j).value;
      var number' := number * 10 + DigitValue(s.rows[i][j]);
      ScanAsWritten(s, i, j, number, isPartNumber)
         == (if isPartNumber' && number' > 0 then [number'] else []) + ScanAsWritten(s, i, j + 1, 0, false)
  {
    ColumnAsWrittenLast(s, i, j, number, isPartNumber);
  }

  /** A digit before the last column: both scans carry on with the run. */
  lemma {:induction false} AsWrittenDigit(s: Schematic, i: nat, j: nat, start: nat, closed: seq<Run>,
                                          number: nat, isPartNumber: bool)
    requires s.Rectangular() && i < s.height
    requires ScanState(s, i, j, start, closed, number, isPartNumber)
    requires forall u :: u in RunsFrom(s.rows[i], 0) ==> !AllZeros(s.rows[i], u)
    requires j < s.width - 1 && IsDigit(s.rows[i][j])
    ensures Kept(s, i, closed) + ScanAsWritten(s, i, j, number, isPartNumber) == RowParts(s, i)
    decreases s.width - j, 0
  {
    var row := s.rows[i];
    ScanDigit(s, i, j, start, closed, number, isPartNumber);
    var number' := number * 10 + DigitValue(row[j]);
    var isPartNumber' := isPartNumber || IsAdjacentToSymbol(s, i, j).value;
    ColumnAsWrittenDigit(s, i, j, number, isPartNumber);
    var rest := ScanAsWritten(s, i, j + 1, number', isPartNumber');
    assert ScanAsWritten(s, i, j, number, isPartNumber) == [] + rest;
    assert [] + rest == rest;
    AsWrittenFrom(s, i, j + 1, start, closed, number', isPartNumber');
  }

  /** A digit in the last column ends a run that is not worth 0: both scans
      close it, with the same value and the same verdict. */
  lemma LastDigitStep(s: Schematic, i: nat, j: nat, start: nat, closed: seq<Run>,
                      number: nat, isPartNumber: bool)
    returns (closed': seq<Run>)
    requires s.Rectangular() && i < s.height
    requires ScanState(s, i, j, start, closed, number, isPartNumber)
    requires forall u :: u in RunsFrom(s.rows[i], 0) ==> !AllZeros(s.rows[i], u)
    requires j == s.width - 1 && IsDigit(s.rows[i][j])
    ensures ScanState(s, i, j + 1, j + 1, closed', 0, false)
    ensures Kept(s, i, closed) + ScanAsWritten(s, i, j, number, isPartNumber)
         == Kept(s, i, closed') + ScanAsWritten(s, i, j + 1, 0, false)
  {
    var row := s.rows[i];
    ScanDigit(s, i, j, start, closed, number, isPartNumber);
    var number' := number * 10 + DigitValue(row[j]);
    var isPartNumber' := isPartNumber || IsAdjacentToSymbol(s, i, j).value;
    closed' := CloseAtEnd(s, i, start, closed, number', isPartNumber');
    var kept := if isPartNumber' && number' > 0 then [number'] else [];
    ScanAsWrittenLast(s, i, j, number, isPartNumber);
    assert Kept(s, i, closed) + (kept + ScanAsWritten(s, i, j + 1, 0, false)) == (Kept(s, i, closed) + kept) + ScanAsWritten(s, i, j + 1, 0, false);
  }

  /** At the end of the row the open run is closed; it is not worth 0. */
  lemma CloseAtEnd(s: Schematic, i: nat, start: nat, closed: seq<Run>, number: nat, isPartNumber: bool)
    returns (closed': seq<Run>)
    requires s.Rectangular() && i < s.height
    requires ScanState(s, i, s.width, start, closed, number, isPartNumber)
    requires forall u :: u in RunsFrom(s.rows[i], 0) ==> !AllZeros(s.rows[i], u)
    requires start < s.width
    ensures number > 0
    ensures ScanState(s, i, s.width, s.width, closed', 0, false)
    ensures Kept(s, i, closed') == Kept(s, i, closed) + if isPartNumber then [number] else []
  {
    ClosedRunNotZero(s, i, s.width, start, closed, number, isPartNumber);
    closed' := ScanClose(s, i, s.width, start, closed, number, isPartNumber);
  }

  /** A digit in the last column: see LastDigitStep. */
  lemma {:induction false} AsWrittenLastDigit(s: Schematic, i: nat, j: nat, start: nat, closed: seq<Run>,
                                              number: nat, isPartNumber: bool)
    requires s.Rectangular() && i < s.height
    requires ScanState(s, i, j, start, closed, number, isPartNumber)
    requires forall u :: u in RunsFrom(s.rows[i], 0) ==> !AllZeros(s.rows[i], u)
    requires j == s.width - 1 && IsDigit(s.rows[i][j])
    ensures Kept(s, i, closed) + ScanAsWritten(s, i, j, number, isPartNumber) == RowParts(s, i)
    decreases s.width - j, 0
  {
    var closed' := LastDigitStep(s, i, j, start, closed, number, isPartNumber);
    AsWrittenFrom(s, i, j + 1, j + 1, closed', 0, false);
  }

  /** A non-digit closes the current run, if any; a run there is not worth 0,
      so the scan as written closes it too, with the same verdict. */
  lemma GapStep(s: Schematic, i: nat, j: nat, start: nat, closed: seq<Run>,
                number: nat, isPartNumber: bool)
    returns (closed': seq<Run>)
    requires s.Rectangular() && i < s.height
    requires ScanState(s, i, j, start, closed, number, isPartNumber)
    requires forall u :: u in RunsFrom(s.rows[i], 0) ==> !AllZeros(s.rows[i], u)
    requires j < s.width && !IsDigit(s.rows[i][j])
    ensures ScanState(s, i, j + 1, j + 1, closed', 0, false)
    ensures Kept(s, i, closed) + ScanAsWritten(s, i, j, number, isPartNumber)
         == Kept(s, i, closed') + ScanAsWritten(s, i, j + 1, 0, false)
  {
    var kept := if isPartNumber && number > 0 then [number] else [];
    ClosedRunNotZero(s, i, j, start, closed, number, isPartNumber);
    ScanAsWrittenGap(s, i, j, number, isPartNumber);
    closed' := ScanClose(s, i, j, start, closed, number, isPartNumber);
    assert Kept(s, i, closed) + (kept + ScanAsWritten(s, i, j + 1, 0, false)) == (Kept(s, i, closed) + kept) + ScanAsWritten(s, i, j + 1, 0, false);
  }

  /** A non-digit: see GapStep. */
  lemma {:induction false} AsWrittenGap(s: Schematic, i: nat, j: nat, start: nat, closed: seq<Run>,
                                        number: nat, isPartNumber: bool)
    requires s.Rectangular() && i < s.height
    requires ScanState(s, i, j, start, closed, number, isPartNumber)
    requires forall u :: u in RunsFrom(s.rows[i], 0) ==> !AllZeros(s.rows[i], u)
    requires j < s.width && !IsDigit(s.rows[i][j])
    ensures Kept(s, i, closed) + ScanAsWritten(s, i, j, number, isPartNumber) == RowParts(s, i)
    decreases s.width - j, 0
  {
    var closed' := GapStep(s, i, j, start, closed, number, isPartNumber);
    AsWrittenFrom(s, i, j + 1, j + 1, closed', 0, false);
  }

  /** The scan as written agrees with the corrected scan on every schematic
      in which no maximal run of digits is worth 0 (a run of zeros only):
      the flag leaks only out of such a run. */
  lemma AsWrittenRow(s: Schematic, i: nat)
    requires s.Rectangular() && i < s.height
    requires forall run :: Maximal(s.rows[i], run) ==> !AllZeros(s.rows[i], run)
    ensures ScanAsWritten(s, i, 0, 0, false) == RowParts(s, i)
  {
    var row := s.rows[i];
    RunsFromAreRuns(row, 0);
    forall u | u in RunsFrom(row, 0)
      ensures !AllZeros(row, u)
    {
      assert Maximal(row, u);
    }
    ScanAtStart(s, i);
    AsWrittenFrom(s, i, 0, 0, [], 0, false);
    var scanned := ScanAsWritten(s, i, 0, 0, false);
    assert Kept(s, i, []) == [];
    assert [] + scanned == scanned;
  }

  lemma {:induction false} AsWrittenWithoutZeroRuns(s: Schematic, n: nat)
    requires s.Rectangular() && n <= s.height
    requires forall i, run :: 0 <= i < s.height && Maximal(s.rows[i], run) ==> !AllZeros(s.rows[i], run)
    ensures PartNumbersAsWritten(s, n) == PartsUpTo(s, n)
  {
    if n > 0 {
      AsWrittenWithoutZeroRuns(s, n - 1);
      AsWrittenRow(s, n - 1);
    }
  }
}
