/** A beam of light entering a contraption of mirrors and splitters at its top
    left corner (prob16/src/main.rs). The beam is followed with a queue of
    (coordinate, direction) pairs and a set of the pairs already expanded; the
    answer is the number of distinct cells those pairs cover. */
module LightBeams {
  import opened Wrappers

  // ---------------------------------------------------------------------------
  // Tiles, directions and parsing

  /** A tile. The source calls `/` and `\` Up and Down; they are MirrorUp and
      MirrorDown here so that they do not clash with the directions. */
  datatype Node = Empty | Horizontal | Vertical | MirrorUp | MirrorDown

  datatype Direction = Up | Left | Down | Right

  /** (row, column), counted from the top left corner. */
  type Coordinate = (nat, nat)

  /** A beam sits on a tile and is about to leave it in the given direction. */
  type Beam = (Coordinate, Direction)

  datatype Error = UnknownNode(c: char)

  function DRow(d: Direction): int {
    match d
    case Up => -1
    case Down => 1
    case _ => 0
  }

  function DCol(d: Direction): int {
    match d
    case Left => -1
    case Right => 1
    case _ => 0
  }

  predicate IsVertical(d: Direction) {
    d == Up || d == Down
  }

  function Opposite(d: Direction): (r: Direction)
    ensures DRow(r) == -DRow(d) && DCol(r) == -DCol(d)
  {
    match d
    case Up => Down
    case Down => Up
    case Left => Right
    case Right => Left
  }

  /** The character that stands for a tile. */
  function Glyph(n: Node): char {
    match n
    case Empty => '.'
    case Horizontal => '-'
    case Vertical => '|'
    case MirrorUp => '/'
    case MirrorDown => '\\'
  }

  /** Parses one tile; any character other than the five glyphs is rejected. */
  function NodeOf(c: char): (r: Result<Node, Error>)
    ensures r.Ok? ==> Glyph(r.value) == c
    ensures r.Err? ==> r.error == UnknownNode(c)
  {
    match c
    case '.' => Ok(Empty)
    case '-' => Ok(Horizontal)
    case '|' => Ok(Vertical)
    case '/' => Ok(MirrorUp)
    case '\\' => Ok(MirrorDown)
    case _ => Err(UnknownNode(c))
  }

  /** Every tile parses back from its glyph, so NodeOf accepts exactly the
      five glyphs. */
  lemma NodeOfGlyph(n: Node)
    ensures NodeOf(Glyph(n)) == Ok(n)
  {
  }

  /** Parses a line tile by tile; the first bad character is the error. */
  function ParseRow(line: string): (r: Result<seq<Node>, Error>)
    ensures r.Ok? <==> forall j :: 0 <= j < |line| ==> NodeOf(line[j]).Ok?
    ensures r.Ok? ==> |r.value| == |line| && forall j :: 0 <= j < |line| ==> Glyph(r.value[j]) == line[j]
    ensures r.Err? ==> exists j :: 0 <= j < |line| && NodeOf(line[j]) == Err(r.error)
  {
    if line == [] then Ok([])
    else
      var n :- NodeOf(line[0]);
      var rest :- ParseRow(line[1..]);
      assert forall j :: 1 <= j < |line| ==> line[j] == line[1..][j - 1];
      Ok([n] + rest)
  }

  /** The tiles of every line, rows kept in order; the first bad line fails. */
  function ParseGrid(lines: seq<string>): (r: Result<seq<seq<Node>>, Error>)
    ensures r.Ok? <==> forall i :: 0 <= i < |lines| ==> ParseRow(lines[i]).Ok?
    ensures r.Ok? ==> |r.value| == |lines| && forall i :: 0 <= i < |lines| ==> ParseRow(lines[i]) == Ok(r.value[i])
    ensures r.Err? ==> exists i :: 0 <= i < |lines| && ParseRow(lines[i]) == Err(r.error)
  {
    if lines == [] then Ok([])
    else
      var row :- ParseRow(lines[0]);
      var rest :- ParseGrid(lines[1..]);
      assert forall i :: 1 <= i < |lines| ==> lines[i] == lines[1..][i - 1];
      Ok([row] + rest)
  }

  // ---------------------------------------------------------------------------
  // The layout

  datatype Layout = Layout(grid: seq<seq<Node>>) {

    function Height(): nat {
      |grid|
    }

    /** The width is read off the first row. */
    function Width(): nat {
      if grid == [] then 0 else |grid[0]|
    }

    /** What `beam` needs: a top left tile, and rows of equal length. */
    ghost predicate Valid() {
      Height() >= 1 && Width() >= 1 && forall i :: 0 <= i < |grid| ==> |grid[i]| == Width()
    }

    predicate InGrid(c: Coordinate) {
      c.0 < Height() && c.1 < Width()
    }

    predicate Contains(row: int, col: int) {
      0 <= row < Height() && 0 <= col < Width()
    }

    function At(c: Coordinate): Node
      requires Valid() && InGrid(c)
    {
      grid[c.0][c.1]
    }
  }

  /** Reads a layout, one line per row, each character a tile. */
  function ParseLayout(lines: seq<string>): (r: Result<Layout, Error>)
    ensures r.Ok? <==> forall i, j :: 0 <= i < |lines| && 0 <= j < |lines[i]| ==> NodeOf(lines[i][j]).Ok?
    ensures r.Ok? ==> r.value.Height() == |lines|
    ensures r.Ok? ==> forall i :: 0 <= i < |lines| ==> |r.value.grid[i]| == |lines[i]|
    ensures r.Ok? ==> forall i, j :: 0 <= i < |lines| && 0 <= j < |lines[i]| ==> Glyph(r.value.grid[i][j]) == lines[i][j]
  {
    var grid :- ParseGrid(lines);
    Ok(Layout(grid))
  }

  // ---------------------------------------------------------------------------
  // Moving and leaving the grid

  /** The neighbouring tile in the beam's direction. Moving up from row 0 or
      left from column 0 would underflow, so those are excluded. */
  function NextCoordinate(b: Beam): (c: Coordinate)
    requires b.1 == Up ==> b.0.0 > 0
    requires b.1 == Left ==> b.0.1 > 0
    ensures c.0 == b.0.0 + DRow(b.1) && c.1 == b.0.1 + DCol(b.1)
    ensures (c.0 == b.0.0) != (c.1 == b.0.1)
  {
    match b
    case ((x, y), Right) => (x, y + 1)
    case ((x, y), Down) => (x + 1, y)
    case ((x, y), Left) => (x, y - 1)
    case ((x, y), Up) => (x - 1, y)
  }

  /** Stepping back the opposite way returns to where the beam was. */
  lemma StepBack(b: Beam)
    requires b.1 == Up ==> b.0.0 > 0
    requires b.1 == Left ==> b.0.1 > 0
    ensures NextCoordinate((NextCoordinate(b), Opposite(b.1))) == b.0
  {
  }

  /** Whether the beam's next step leaves the grid. The source compares with
      `>=`, so a coordinate past the last row or column also counts as off. */
  function BeamGoingOffGrid(l: Layout, b: Beam): (r: bool)
    requires l.Height() >= 1 && l.Width() >= 1
    ensures !r ==> (b.1 == Up ==> b.0.0 > 0) && (b.1 == Left ==> b.0.1 > 0)
    ensures l.InGrid(b.0) ==> (r <==> !l.Contains(b.0.0 + DRow(b.1), b.0.1 + DCol(b.1)))
  {
    match b
    case ((x, _), Down) => x >= l.Height() - 1
    case ((_, y), Right) => y >= l.Width() - 1
    case ((x, _), Up) => x == 0
    case ((_, y), Left) => y == 0
  }

  /** A beam that stays on the grid steps onto a tile of the grid. */
  lemma StepStaysInGrid(l: Layout, b: Beam)
    requires l.Height() >= 1 && l.Width() >= 1
    requires l.InGrid(b.0) && !BeamGoingOffGrid(l, b)
    ensures l.InGrid(NextCoordinate(b))
  {
  }

  // ---------------------------------------------------------------------------
  // What a tile does to a beam

  /** `/`: right turns up, down turns left, left turns down, up turns right. */
  function ReflectUp(d: Direction): (r: Direction)
    ensures IsVertical(r) != IsVertical(d)
  {
    match d
    case Right => Up
    case Down => Left
    case Left => Down
    case Up => Right
  }

  /** `\`: right turns down, down turns right, left turns up, up turns left. */
  function ReflectDown(d: Direction): (r: Direction)
    ensures IsVertical(r) != IsVertical(d)
  {
    match d
    case Right => Down
    case Down => Right
    case Left => Up
    case Up => Left
  }

  /** Each mirror undoes itself, so each is a bijection on directions. */
  lemma MirrorsAreInvolutions(d: Direction)
    ensures ReflectUp(ReflectUp(d)) == d
    ensures ReflectDown(ReflectDown(d)) == d
  {
  }

  /** A beam sent back the way it left a mirror leaves the way it came. */
  lemma MirrorsAreReversible(d: Direction)
    ensures ReflectUp(Opposite(ReflectUp(d))) == Opposite(d)
    ensures ReflectDown(Opposite(ReflectDown(d))) == Opposite(d)
  {
  }

  /** The directions a beam leaves a tile in, having entered it moving in `d`,
      in the order the source queues them. */
  function Outgoing(n: Node, d: Direction): (r: seq<Direction>)
    ensures 1 <= |r| <= 2
    ensures |r| == 2 <==> (n == Horizontal && IsVertical(d)) || (n == Vertical && !IsVertical(d))
    ensures |r| == 2 ==> r[1] == Opposite(r[0]) && IsVertical(r[0]) != IsVertical(d)
    ensures n == Horizontal ==> forall e :: e in r ==> !IsVertical(e)
    ensures n == Vertical ==> forall e :: e in r ==> IsVertical(e)
    ensures n == Empty || (n == Horizontal && !IsVertical(d)) || (n == Vertical && IsVertical(d)) ==> r == [d]
    ensures n == MirrorUp ==> r == [ReflectUp(d)]
    ensures n == MirrorDown ==> r == [ReflectDown(d)]
  {
    match n
    case Empty => [d]
    case Horizontal => if d == Right || d == Left then [d] else [Left, Right]
    case Vertical => if d == Up || d == Down then [d] else [Up, Down]
    case MirrorUp => [ReflectUp(d)]
    case MirrorDown => [ReflectDown(d)]
  }

  /** The beams one step on from `b`: none if it leaves the grid, otherwise
      the outgoing directions of the tile it steps onto. */
  function Successors(l: Layout, b: Beam): (r: seq<Beam>)
    requires l.Valid() && l.InGrid(b.0)
    ensures r == [] <==> BeamGoingOffGrid(l, b)
    ensures forall s :: s in r ==> l.InGrid(s.0) && s.0 == NextCoordinate(b)
  {
    if BeamGoingOffGrid(l, b) then []
    else
      var c := NextCoordinate(b);
      var ds := Outgoing(l.At(c), b.1);
      seq(|ds|, i requires 0 <= i < |ds| => (c, ds[i]))
  }

  /** One expansion of the source's loop: step onto the next tile and queue
      the beams that leave it. */
  method Expand(l: Layout, beam: Beam, queue: seq<Beam>) returns (q: seq<Beam>)
    requires l.Valid() && l.InGrid(beam.0) && !BeamGoingOffGrid(l, beam)
    ensures q == queue + Successors(l, beam)
  {
    var coord := NextCoordinate(beam);
    var node := l.grid[coord.0][coord.1];
    var dir := beam.1;
    q := queue;
    match node {
      case Empty =>
        q := q + [(coord, dir)];
      case Horizontal =>
        if dir == Right || dir == Left {
          q := q + [(coord, dir)];
        } else {
          q := q + [(coord, Left)];
          q := q + [(coord, Right)];
        }
      case Vertical =>
        if dir == Up || dir == Down {
          q := q + [(coord, dir)];
        } else {
          q := q + [(coord, Up)];
          q := q + [(coord, Down)];
        }
      case MirrorUp =>
        match dir {
          case Right => q := q + [(coord, Up)];
          case Down => q := q + [(coord, Left)];
          case Left => q := q + [(coord, Down)];
          case Up => q := q + [(coord, Right)];
        }
      case MirrorDown =>
        match dir {
          case Right => q := q + [(coord, Down)];
          case Down => q := q + [(coord, Right)];
          case Left => q := q + [(coord, Up)];
          case Up => q := q + [(coord, Left)];
        }
    }
  }

  // ---------------------------------------------------------------------------
  // Which beams are reached

  /** A successor relation on beams. */
  type Step = Beam -> seq<Beam>

  /** The successors of a layout as a relation on all beams; a beam that is
      not on the grid has none. */
  ghost function StepOf(l: Layout): Step {
    (b: Beam) => if l.Valid() && l.InGrid(b.0) then Successors(l, b) else []
  }

  /** A path of beams from one of `starts`, each a successor of the last. */
  ghost predicate IsTrace(next: Step, starts: seq<Beam>, p: seq<Beam>) {
    && |p| >= 1
    && p[0] in starts
    && (forall i :: 0 <= i < |p| - 1 ==> p[i + 1] in next(p[i]))
  }

  ghost predicate Reaches(next: Step, starts: seq<Beam>, b: Beam) {
    exists p :: IsTrace(next, starts, p) && p[|p| - 1] == b
  }

  /** A start is reached. */
  lemma StartReached(next: Step, starts: seq<Beam>, b: Beam)
    requires b in starts
    ensures Reaches(next, starts, b)
  {
    assert IsTrace(next, starts, [b]);
  }

  /** A successor of a reached beam is reached. */
  lemma ReachesOnward(next: Step, starts: seq<Beam>, b: Beam)
    requires Reaches(next, starts, b)
    ensures forall s :: s in next(b) ==> Reaches(next, starts, s)
  {
    var p :| IsTrace(next, starts, p) && p[|p| - 1] == b;
    forall s | s in next(b)
      ensures Reaches(next, starts, s)
    {
      var q := p + [s];
      assert q[|q| - 1] == s;
      assert IsTrace(next, starts, q);
    }
  }

  /** No successor of a visited beam is missing from `visited` and `queue`. */
  ghost predicate Closed(next: Step, visited: set<Beam>, queue: seq<Beam>) {
    forall b :: b in visited ==> forall s :: s in next(b) ==> s in visited || s in queue
  }

  /** A trace from starts inside a closed set stays inside it. */
  lemma {:induction false} TraceStaysInside(next: Step, starts: seq<Beam>, visited: set<Beam>, p: seq<Beam>)
    requires IsTrace(next, starts, p)
    requires (forall b :: b in starts ==> b in visited) && Closed(next, visited, [])
    ensures p[|p| - 1] in visited
    decreases |p|
  {
    if |p| > 1 {
      var q := p[..|p| - 1];
      assert IsTrace(next, starts, q);
      TraceStaysInside(next, starts, visited, q);
      assert p[|p| - 1] in next(q[|q| - 1]);
    }
  }

  /** The tiles of one row. */
  ghost function RowCells(x: nat, width: nat): set<Coordinate> {
    if width == 0 then {} else RowCells(x, width - 1) + {(x, width - 1)}
  }

  /** The tiles of a grid of the given size. */
  ghost function Cells(height: nat, width: nat): set<Coordinate> {
    if height == 0 then {} else Cells(height - 1, width) + RowCells(height - 1, width)
  }

  lemma {:induction false} RowCellsMembers(x: nat, width: nat, c: Coordinate)
    ensures c in RowCells(x, width) <==> c.0 == x && c.1 < width
    decreases width
  {
    if width > 0 {
      RowCellsMembers(x, width - 1, c);
    }
  }

  lemma {:induction false} CellsMembers(height: nat, width: nat, c: Coordinate)
    ensures c in Cells(height, width) <==> c.0 < height && c.1 < width
    decreases height
  {
    if height > 0 {
      CellsMembers(height - 1, width, c);
      RowCellsMembers(height - 1, width, c);
    }
  }

  /** The tiles of the grid, each paired with one direction. */
  ghost function Heading(cells: set<Coordinate>, d: Direction): set<Beam> {
    set c | c in cells :: (c, d)
  }

  /** Every (coordinate, direction) pair on the grid. */
  ghost function AllBeams(l: Layout): set<Beam> {
    var cells := Cells(l.Height(), l.Width());
    Heading(cells, Up) + Heading(cells, Left) + Heading(cells, Down) + Heading(cells, Right)
  }

  lemma InAllBeams(l: Layout, b: Beam)
    requires l.InGrid(b.0)
    ensures b in AllBeams(l)
  {
    var cells := Cells(l.Height(), l.Width());
    CellsMembers(l.Height(), l.Width(), b.0);
    assert b in Heading(cells, b.1);
    match b.1
    case Up =>
    case Left =>
    case Down =>
    case Right =>
  }

  lemma AllBeamsOnGrid(l: Layout, b: Beam)
    requires b in AllBeams(l)
    ensures l.InGrid(b.0)
  {
    CellsMembers(l.Height(), l.Width(), b.0);
  }

  lemma AllInAllBeams(l: Layout, beams: set<Beam>)
    requires forall b :: b in beams ==> l.InGrid(b.0)
    ensures beams <= AllBeams(l)
  {
    forall b | b in beams
      ensures b in AllBeams(l)
    {
      InAllBeams(l, b);
    }
  }

  /** The beams on the grid reached from `starts`. */
  ghost function Reached(l: Layout, starts: seq<Beam>): set<Beam> {
    set b | b in AllBeams(l) && Reaches(StepOf(l), starts, b)
  }

  /** The tiles some reached beam sits on. */
  ghost function Energized(l: Layout, starts: seq<Beam>): set<Coordinate> {
    set b | b in Reached(l, starts) :: b.0
  }

  /** The beam enters the top left tile moving right and is turned by it. */
  function Entry(l: Layout): (r: seq<Beam>)
    requires l.Valid()
    ensures 1 <= |r| && forall b :: b in r ==> b.0 == (0, 0)
  {
    var ds := Outgoing(l.grid[0][0], Right);
    seq(|ds|, i requires 0 <= i < |ds| => ((0, 0), ds[i]))
  }

  // ---------------------------------------------------------------------------
  // The worklist

  /** What the worklist loop keeps: everything queued or taken is reached, every
      start is taken or queued, and every successor of a taken beam is taken
      or queued. */
  ghost predicate Progress(next: Step, start: seq<Beam>, visited: set<Beam>, queue: seq<Beam>) {
    && (forall b :: b in queue ==> Reaches(next, start, b))
    && (forall b :: b in visited ==> Reaches(next, start, b))
    && (forall b :: b in start ==> b in visited || b in queue)
    && Closed(next, visited, queue)
  }

  lemma ProgressAtStart(next: Step, start: seq<Beam>)
    ensures Progress(next, start, {}, start)
  {
    forall b | b in start
      ensures Reaches(next, start, b)
    {
      StartReached(next, start, b);
    }
  }

  /** Popping a beam already taken keeps the loop's invariant. */
  lemma ProgressSkipping(next: Step, start: seq<Beam>, visited: set<Beam>, queue: seq<Beam>)
    requires queue != [] && Progress(next, start, visited, queue)
    requires queue[0] in visited
    ensures Progress(next, start, visited, queue[1..])
  {
    assert forall b :: b in queue ==> b == queue[0] || b in queue[1..];
  }

  /** Taking a new beam and queueing its successors keeps the loop's invariant. */
  lemma ProgressTaking(next: Step, start: seq<Beam>, visited: set<Beam>, queue: seq<Beam>)
    requires queue != [] && Progress(next, start, visited, queue)
    requires queue[0] !in visited
    ensures Progress(next, start, visited + {queue[0]}, queue[1..] + next(queue[0]))
  {
    var beam, rest := queue[0], queue[1..];
    assert forall b :: b in queue ==> b == beam || b in rest;
    ReachesOnward(next, start, beam);
  }

  /** When the queue is empty, the beams taken are exactly those reached. */
  lemma ProgressDone(next: Step, start: seq<Beam>, visited: set<Beam>)
    requires Progress(next, start, visited, [])
    ensures forall b :: b in visited <==> Reaches(next, start, b)
  {
    forall b | Reaches(next, start, b)
      ensures b in visited
    {
      var p :| IsTrace(next, start, p) && p[|p| - 1] == b;
      TraceStaysInside(next, start, visited, p);
    }
  }

  /** Once the queue is empty, the beams taken on the grid are the beams reached. */
  lemma TakenAreReached(l: Layout, start: seq<Beam>, visited: set<Beam>)
    requires Progress(StepOf(l), start, visited, []) && visited <= AllBeams(l)
    ensures visited == Reached(l, start)
  {
    ProgressDone(StepOf(l), start, visited);
  }

  /** A set of reached beams on the grid that holds the starts and every
      successor of its members is the set of beams reached. */
  lemma ReachedExactly(l: Layout, start: seq<Beam>, beams: set<Beam>)
    requires l.Valid()
    requires forall b :: b in beams ==> l.InGrid(b.0) && Reaches(StepOf(l), start, b)
    requires forall b :: b in start ==> b in beams
    requires Closed(StepOf(l), beams, [])
    ensures Reached(l, start) == beams
  {
    AllInAllBeams(l, beams);
    TakenAreReached(l, start, beams);
  }

  /** Taking a beam not yet taken leaves fewer beams untaken. */
  lemma FewerLeft(all: set<Beam>, visited: set<Beam>, b: Beam)
    requires b in all && b !in visited
    ensures |all - (visited + {b})| < |all - visited|
  {
    assert all - (visited + {b}) == (all - visited) - {b};
  }

  /** One turn of the `while let` loop of `beam`: pop the front beam; unless
      it was taken before, take it and, unless it leaves the grid, queue its
      successors. */
  method Turn(l: Layout, queue: seq<Beam>, pathsTaken: set<Beam>) returns (queue': seq<Beam>, pathsTaken': set<Beam>)
    requires l.Valid() && queue != [] && forall b :: b in queue ==> l.InGrid(b.0)
    ensures queue[0] in pathsTaken ==> queue' == queue[1..] && pathsTaken' == pathsTaken
    ensures queue[0] !in pathsTaken ==> queue' == queue[1..] + StepOf(l)(queue[0]) && pathsTaken' == pathsTaken + {queue[0]}
    ensures forall b :: b in queue' ==> l.InGrid(b.0)
  {
    var beam := queue[0];
    queue' := queue[1..];
    pathsTaken' := pathsTaken;
    if beam in pathsTaken {
      return;
    }
    pathsTaken' := pathsTaken + {beam};
    if BeamGoingOffGrid(l, beam) {
      assert queue' + StepOf(l)(beam) == queue';
      return;
    }
    queue' := Expand(l, beam, queue');
  }

  /** The `while let` loop of `beam`. The pairs taken are exactly the beams
      reached from the initial queue; each is expanded once, so there are at
      most four per tile. */
  method Propagate(l: Layout, start: seq<Beam>) returns (pathsTaken: set<Beam>, ghost expansions: nat)
    requires l.Valid() && forall b :: b in start ==> l.InGrid(b.0)
    ensures pathsTaken == Reached(l, start)
    ensures expansions == |pathsTaken| <= 4 * (l.Height() * l.Width())
  {
    ghost var next := StepOf(l);
    ghost var all := AllBeams(l);
    var queue := start;
    pathsTaken := {};
    expansions := 0;
    ProgressAtStart(next, start);
    while queue != []
      invariant Progress(next, start, pathsTaken, queue)
      invariant forall b :: b in queue ==> l.InGrid(b.0)
      invariant pathsTaken <= all
      invariant expansions == |pathsTaken|
      decreases |all - pathsTaken|, |queue|
    {
      ghost var beam := queue[0];
      if beam in pathsTaken {
        ProgressSkipping(next, start, pathsTaken, queue);
      } else {
        ProgressTaking(next, start, pathsTaken, queue);
        InAllBeams(l, beam);
        FewerLeft(all, pathsTaken, beam);
        assert |pathsTaken + {beam}| == |pathsTaken| + 1;
        expansions := expansions + 1;
      }
      queue, pathsTaken := Turn(l, queue, pathsTaken);
    }
    TakenAreReached(l, start, pathsTaken);
    AllBeamsCount(l);
    SubsetCount(pathsTaken, all);
  }

  // ---------------------------------------------------------------------------
  // Counting

  lemma {:induction false} RowCellsCount(x: nat, width: nat)
    ensures |RowCells(x, width)| == width
    decreases width
  {
    if width > 0 {
      RowCellsCount(x, width - 1);
      RowCellsMembers(x, width - 1, (x, width - 1));
    }
  }

  lemma RowApart(x: nat, width: nat)
    ensures Cells(x, width) * RowCells(x, width) == {}
  {
    forall c | c in RowCells(x, width)
      ensures c !in Cells(x, width)
    {
      RowCellsMembers(x, width, c);
      CellsMembers(x, width, c);
    }
  }

  /** A grid of `height` rows of `width` tiles has `height * width` tiles. */
  lemma {:induction false} CellsCount(height: nat, width: nat)
    ensures |Cells(height, width)| == height * width
    decreases height
  {
    if height > 0 {
      var x := height - 1;
      CellsCount(x, width);
      RowCellsCount(x, width);
      RowApart(x, width);
      assert (x + 1) * width == x * width + width;
    }
  }

  lemma {:induction false} HeadingCount(cells: set<Coordinate>, d: Direction)
    ensures |Heading(cells, d)| == |cells|
    decreases |cells|
  {
    if cells != {} {
      var c :| c in cells;
      HeadingCount(cells - {c}, d);
      assert Heading(cells, d) == Heading(cells - {c}, d) + {(c, d)};
    }
  }

  /** There are four beams per tile: the bound on the number of expansions. */
  lemma AllBeamsCount(l: Layout)
    ensures |AllBeams(l)| == 4 * (l.Height() * l.Width())
  {
    var cells := Cells(l.Height(), l.Width());
    CellsCount(l.Height(), l.Width());
    HeadingCount(cells, Up);
    HeadingCount(cells, Left);
    HeadingCount(cells, Down);
    HeadingCount(cells, Right);
    var u, le, d, r := Heading(cells, Up), Heading(cells, Left), Heading(cells, Down), Heading(cells, Right);
    assert u * le == {};
    assert (u + le) * d == {};
    assert (u + le + d) * r == {};
  }

  lemma SubsetCount<T>(small: set<T>, big: set<T>)
    requires small <= big
    ensures |small| <= |big|
  {
    assert big == small + (big - small);
  }

  /** Only tiles of the grid are energized, and the first beam's tile is. */
  lemma EnergizedBounds(l: Layout)
    requires l.Valid()
    ensures (0, 0) in Energized(l, Entry(l))
    ensures 1 <= |Energized(l, Entry(l))| <= l.Height() * l.Width()
  {
    var cells := Cells(l.Height(), l.Width());
    var e := Energized(l, Entry(l));
    forall c | c in e
      ensures c in cells
    {
      var b :| b in Reached(l, Entry(l)) && b.0 == c;
      AllBeamsOnGrid(l, b);
      CellsMembers(l.Height(), l.Width(), c);
    }
    var first := Entry(l)[0];
    StartReached(StepOf(l), Entry(l), first);
    InAllBeams(l, first);
    assert first in Reached(l, Entry(l));
    assert (0, 0) in e;
    CellsCount(l.Height(), l.Width());
    SubsetCount(e, cells);
  }

  // ---------------------------------------------------------------------------
  // The first tile and the answer

  lemma TraceSecond(next: Step, starts: seq<Beam>, p: seq<Beam>)
    requires IsTrace(next, starts, p)
    ensures |p| > 1 ==> p[1] in next(p[0])
  {
  }

  /** A start that leaves the grid at once contributes only itself. */
  lemma DeadStart(l: Layout, b0: Beam, rest: seq<Beam>, b: Beam)
    requires l.Valid() && l.InGrid(b0.0) && BeamGoingOffGrid(l, b0)
    ensures Reaches(StepOf(l), [b0] + rest, b) <==> b == b0 || Reaches(StepOf(l), rest, b)
  {
    var next := StepOf(l);
    assert next(b0) == [];
    if Reaches(next, [b0] + rest, b) {
      var p :| IsTrace(next, [b0] + rest, p) && p[|p| - 1] == b;
      if p[0] == b0 {
        TraceSecond(next, [b0] + rest, p);
        assert |p| == 1;
      } else {
        assert IsTrace(next, rest, p);
      }
    }
    if b == b0 {
      StartReached(next, [b0] + rest, b0);
    } else if Reaches(next, rest, b) {
      var p :| IsTrace(next, rest, p) && p[|p| - 1] == b;
      assert IsTrace(next, [b0] + rest, p);
    }
  }

  lemma EnergizedDeadStart(l: Layout, b0: Beam, rest: seq<Beam>)
    requires l.Valid() && l.InGrid(b0.0) && BeamGoingOffGrid(l, b0)
    ensures Energized(l, [b0] + rest) == {b0.0} + Energized(l, rest)
  {
    InAllBeams(l, b0);
    forall b | b in AllBeams(l)
      ensures b in Reached(l, [b0] + rest) <==> b == b0 || b in Reached(l, rest)
    {
      DeadStart(l, b0, rest, b);
    }
  }

  /** A `/` in the corner sends the entering beam straight up and off the
      grid: only the corner is energized. */
  lemma TurnedStraightOff(l: Layout)
    requires l.Valid() && l.grid[0][0] == MirrorUp
    ensures |Energized(l, Entry(l))| == 1
  {
    assert Entry(l) == [((0, 0), Up)] + [];
    EnergizedDeadStart(l, ((0, 0), Up), []);
    assert Energized(l, []) == {};
  }

  /** A `|` in the corner splits the entering beam; the upward half leaves
      the grid at once and adds no tile. */
  lemma UpwardHalfLeaves(l: Layout)
    requires l.Valid() && l.grid[0][0] == Vertical
    ensures Energized(l, Entry(l)) == Energized(l, [((0, 0), Down)])
  {
    var start := [((0, 0), Down)];
    assert Entry(l) == [((0, 0), Up)] + start;
    EnergizedDeadStart(l, ((0, 0), Up), start);
    StartReached(StepOf(l), start, start[0]);
    InAllBeams(l, start[0]);
    assert start[0] in Reached(l, start);
  }

  /** `beam`: the top left tile turns the entering beam. The source queues a
      single beam for it, and returns 1 at once for `/`, which turns the beam
      straight off the grid; for `|` it queues only the downward half, the
      upward half leaving at once. Either way the answer is the number of
      tiles reached from the entry. */
  method SendBeam(l: Layout) returns (r: nat)
    requires l.Valid()
    ensures r == |Energized(l, Entry(l))|
  {
    var start: seq<Beam>;
    match l.grid[0][0] {
      case Empty =>
        start := [((0, 0), Right)];
        assert Entry(l) == start;
      case Horizontal =>
        start := [((0, 0), Right)];
        assert Entry(l) == start;
      case MirrorUp =>
        TurnedStraightOff(l);
        return 1;
      case MirrorDown =>
        start := [((0, 0), Down)];
        assert Entry(l) == start;
      case Vertical =>
        start := [((0, 0), Down)];
        UpwardHalfLeaves(l);
    }
    assert Energized(l, Entry(l)) == Energized(l, start);
    var pathsTaken, _ := Propagate(l, start);
    var coords := set b | b in pathsTaken :: b.0;
    assert coords == Energized(l, start);
    r := |coords|;
  }

  /** `part1`: parse the layout and count the energized tiles. A layout without
      tiles or with rows of different lengths makes the source panic. */
  method Part1(lines: seq<string>) returns (r: Result<nat, Error>)
    requires |lines| >= 1 && |lines[0]| >= 1
    requires forall i :: 0 <= i < |lines| ==> |lines[i]| == |lines[0]|
    ensures ParseLayout(lines).Err? ==> r == Err(ParseLayout(lines).error)
    ensures ParseLayout(lines).Ok? ==> ParseLayout(lines).value.Valid() && r == Ok(|Energized(ParseLayout(lines).value, Entry(ParseLayout(lines).value))|)
    ensures r.Ok? ==> 1 <= r.value <= |lines| * |lines[0]|
  {
    var layout :- ParseLayout(lines);
    var n := SendBeam(layout);
    EnergizedBounds(layout);
    r := Ok(n);
  }

  // ---------------------------------------------------------------------------
  // Examples

  lemma ParseRowExamples()
    ensures ParseRow(".|.") == Ok([Empty, Vertical, Empty])
    ensures ParseRow("-..") == Ok([Horizontal, Empty, Empty])
    ensures ParseRow("/\\.") == Ok([MirrorUp, MirrorDown, Empty])
  {
    ParseGlyphs(".|.", [Empty, Vertical, Empty]);
    ParseGlyphs("-..", [Horizontal, Empty, Empty]);
    ParseGlyphs("/\\.", [MirrorUp, MirrorDown, Empty]);
  }

  /** Round trip: a line spelling out tiles glyph by glyph parses back to
      those tiles. */
  lemma ParseGlyphs(line: string, tiles: seq<Node>)
    requires |line| == |tiles| && forall j :: 0 <= j < |line| ==> line[j] == Glyph(tiles[j])
    ensures ParseRow(line) == Ok(tiles)
  {
    forall j | 0 <= j < |line|
      ensures NodeOf(line[j]).Ok?
    {
      NodeOfGlyph(tiles[j]);
    }
    var r := ParseRow(line).value;
    forall j | 0 <= j < |line|
      ensures r[j] == tiles[j]
    {
      assert Glyph(r[j]) == Glyph(tiles[j]);
    }
    assert r == tiles;
  }

  /** The layout `.|.` / `-..` / `/\.` parses row by row. */
  lemma ParseExample()
    ensures ParseLayout([".|.", "-..", "/\\."]) ==
      Ok(Layout([[Empty, Vertical, Empty], [Horizontal, Empty, Empty], [MirrorUp, MirrorDown, Empty]]))
  {
    ParseRowExamples();
    var lines := [".|.", "-..", "/\\."];
    assert ParseGrid(lines).Ok?;
    var grid := ParseGrid(lines).value;
    assert grid == [[Empty, Vertical, Empty], [Horizontal, Empty, Empty], [MirrorUp, MirrorDown, Empty]];
  }

  /** An empty 3 by 3 layout. */
  const EmptyThree := Layout([[Empty, Empty, Empty], [Empty, Empty, Empty], [Empty, Empty, Empty]])

  /** On a 3 by 3 grid the four edge exits are off the grid, and an inner
      step is not. */
  lemma OffGridExample()
    ensures BeamGoingOffGrid(EmptyThree, ((0, 0), Up))
    ensures BeamGoingOffGrid(EmptyThree, ((0, 0), Left))
    ensures BeamGoingOffGrid(EmptyThree, ((0, 2), Right))
    ensures BeamGoingOffGrid(EmptyThree, ((2, 0), Down))
    ensures !BeamGoingOffGrid(EmptyThree, ((1, 1), Down))
  {
  }

  lemma EmptyThreeSteps()
    ensures EmptyThree.Valid()
    ensures Entry(EmptyThree) == [((0, 0), Right)]
    ensures StepOf(EmptyThree)(((0, 0), Right)) == [((0, 1), Right)]
    ensures StepOf(EmptyThree)(((0, 1), Right)) == [((0, 2), Right)]
    ensures StepOf(EmptyThree)(((0, 2), Right)) == []
  {
  }

  /** The beams the empty layout's entry reaches: the top row, heading right. */
  const TopRow: set<Beam> := {((0, 0), Right), ((0, 1), Right), ((0, 2), Right)}

  const TopTiles: set<Coordinate> := {(0, 0), (0, 1), (0, 2)}

  lemma TopRowClosed()
    ensures Closed(StepOf(EmptyThree), TopRow, [])
  {
    EmptyThreeSteps();
  }

  lemma TopRowReachedAll()
    ensures EmptyThree.Valid()
    ensures forall b :: b in TopRow ==> EmptyThree.InGrid(b.0) && Reaches(StepOf(EmptyThree), Entry(EmptyThree), b)
  {
    EmptyThreeSteps();
    var next, entry := StepOf(EmptyThree), Entry(EmptyThree);
    StartReached(next, entry, ((0, 0), Right));
    ReachesOnward(next, entry, ((0, 0), Right));
    ReachesOnward(next, entry, ((0, 1), Right));
  }

  lemma EmptyThreeReached()
    ensures EmptyThree.Valid()
    ensures Reached(EmptyThree, Entry(EmptyThree)) == TopRow
  {
    EmptyThreeSteps();
    TopRowClosed();
    TopRowReachedAll();
    ReachedExactly(EmptyThree, Entry(EmptyThree), TopRow);
  }

  lemma TopRowCovered()
    ensures (set b | b in TopRow :: b.0) == TopTiles && |TopTiles| == 3
  {
    var e := set b | b in TopRow :: b.0;
    assert ((0, 0), Right) in TopRow && ((0, 1), Right) in TopRow && ((0, 2), Right) in TopRow;
    assert e == TopTiles;
  }

  /** On an empty 3 by 3 grid the beam crosses the top row and leaves: three
      tiles are energized. */
  lemma EmptyGridExample()
    ensures EmptyThree.Valid() && |Energized(EmptyThree, Entry(EmptyThree))| == 3
  {
    EmptyThreeReached();
    TopRowCovered();
  }

  /** The layout `.\.` / `/-.` / `\/.`, whose splitter feeds a loop. */
  const LoopThree := Layout([[Empty, MirrorDown, Empty], [MirrorUp, Horizontal, Empty], [MirrorDown, MirrorUp, Empty]])

  lemma LoopThreeTopSteps()
    ensures LoopThree.Valid()
    ensures Entry(LoopThree) == [((0, 0), Right)]
    ensures StepOf(LoopThree)(((0, 0), Right)) == [((0, 1), Down)]
    ensures StepOf(LoopThree)(((0, 1), Down)) == [((1, 1), Left), ((1, 1), Right)]
  {
  }

  lemma LoopThreeMiddleSteps()
    ensures LoopThree.Valid()
    ensures StepOf(LoopThree)(((1, 1), Left)) == [((1, 0), Down)]
    ensures StepOf(LoopThree)(((1, 1), Right)) == [((1, 2), Right)]
    ensures StepOf(LoopThree)(((1, 0), Down)) == [((2, 0), Right)]
  {
  }

  lemma LoopThreeBottomSteps()
    ensures LoopThree.Valid()
    ensures StepOf(LoopThree)(((2, 0), Right)) == [((2, 1), Up)]
    ensures StepOf(LoopThree)(((2, 1), Up)) == [((1, 1), Left), ((1, 1), Right)]
    ensures StepOf(LoopThree)(((1, 2), Right)) == []
  {
  }

  lemma LoopThreeSteps()
    ensures LoopThree.Valid()
    ensures Entry(LoopThree) == [((0, 0), Right)]
    ensures StepOf(LoopThree)(((0, 0), Right)) == [((0, 1), Down)]
    ensures StepOf(LoopThree)(((0, 1), Down)) == [((1, 1), Left), ((1, 1), Right)]
    ensures StepOf(LoopThree)(((1, 1), Left)) == [((1, 0), Down)]
    ensures StepOf(LoopThree)(((1, 1), Right)) == [((1, 2), Right)]
    ensures StepOf(LoopThree)(((1, 0), Down)) == [((2, 0), Right)]
    ensures StepOf(LoopThree)(((2, 0), Right)) == [((2, 1), Up)]
    ensures StepOf(LoopThree)(((2, 1), Up)) == [((1, 1), Left), ((1, 1), Right)]
    ensures StepOf(LoopThree)(((1, 2), Right)) == []
  {
    LoopThreeTopSteps();
    LoopThreeMiddleSteps();
    LoopThreeBottomSteps();
  }

  /** The beams the loop layout's entry reaches: four along the way into the
      splitter and four round the loop and out. */
  const LoopInto: set<Beam> := {((0, 0), Right), ((0, 1), Down), ((1, 1), Left), ((1, 1), Right)}
  const LoopRound: set<Beam> := {((1, 0), Down), ((2, 0), Right), ((2, 1), Up), ((1, 2), Right)}
  const LoopBeams: set<Beam> := LoopInto + LoopRound

  lemma LoopIntoClosed()
    ensures forall b :: b in LoopInto ==> forall s :: s in StepOf(LoopThree)(b) ==> s in LoopBeams
  {
    LoopThreeSteps();
  }

  lemma LoopRoundClosed()
    ensures forall b :: b in LoopRound ==> forall s :: s in StepOf(LoopThree)(b) ==> s in LoopBeams
  {
    LoopThreeSteps();
  }

  lemma LoopThreeClosed()
    ensures Closed(StepOf(LoopThree), LoopBeams, [])
  {
    LoopIntoClosed();
    LoopRoundClosed();
  }

  lemma LoopThreeReachedAll()
    ensures LoopThree.Valid()
    ensures forall b :: b in LoopBeams ==> Reaches(StepOf(LoopThree), Entry(LoopThree), b)
  {
    LoopThreeSteps();
    var next, entry := StepOf(LoopThree), Entry(LoopThree);
    StartReached(next, entry, ((0, 0), Right));
    ReachesOnward(next, entry, ((0, 0), Right));
    ReachesOnward(next, entry, ((0, 1), Down));
    ReachesOnward(next, entry, ((1, 1), Left));
    ReachesOnward(next, entry, ((1, 1), Right));
    ReachesOnward(next, entry, ((1, 0), Down));
    ReachesOnward(next, entry, ((2, 0), Right));
  }

  lemma LoopBeamsOnGrid()
    ensures forall b :: b in LoopBeams ==> LoopThree.InGrid(b.0)
  {
  }

  lemma LoopThreeReached()
    ensures LoopThree.Valid()
    ensures Reached(LoopThree, Entry(LoopThree)) == LoopBeams
  {
    LoopThreeTopSteps();
    LoopThreeClosed();
    LoopThreeReachedAll();
    LoopBeamsOnGrid();
    ReachedExactly(LoopThree, Entry(LoopThree), LoopBeams);
  }

  /** The tiles the loop layout's beams cover. */
  const LoopTiles: set<Coordinate> := {(0, 0), (0, 1), (1, 1), (1, 0)} + {(2, 0), (2, 1), (1, 2)}

  lemma LoopTilesCount()
    ensures |LoopTiles| == 7
  {
    var upper: set<Coordinate> := {(0, 0), (0, 1), (1, 1), (1, 0)};
    var lower: set<Coordinate> := {(2, 0), (2, 1), (1, 2)};
    assert |upper| == 4;
    assert |lower| == 3;
    assert upper * lower == {};
  }

  lemma LoopTilesCovered()
    ensures (set b | b in LoopBeams :: b.0) == LoopTiles
  {
    var e := set b | b in LoopBeams :: b.0;
    forall c | c in e
      ensures c in LoopTiles
    {
      var b :| b in LoopBeams && b.0 == c;
      assert b in LoopInto || b in LoopRound;
    }
    forall c | c in LoopTiles
      ensures c in e
    {
      var d := if c == (0, 1) || c == (1, 0) then Down else if c == (2, 1) then Up else Right;
      assert (c, d) in LoopBeams;
    }
  }

  /** The beam splits in the middle, runs round a loop back into the splitter
      and still energizes only seven tiles. */
  lemma LoopExample()
    ensures LoopThree.Valid() && |Energized(LoopThree, Entry(LoopThree))| == 7
  {
    LoopThreeReached();
    LoopTilesCovered();
    LoopTilesCount();
  }

  /** The layout `..\` / `...` / `...`, with a mirror in the top right
      corner. */
  const CornerThree := Layout([[Empty, Empty, MirrorDown], [Empty, Empty, Empty], [Empty, Empty, Empty]])

  lemma CornerThreeParses()
    ensures ParseLayout(["..\\", "...", "..."]) == Ok(CornerThree)
  {
    ParseGlyphs("..\\", [Empty, Empty, MirrorDown]);
    ParseGlyphs("...", [Empty, Empty, Empty]);
    var lines := ["..\\", "...", "..."];
    assert ParseGrid(lines).Ok?;
    assert ParseGrid(lines).value == CornerThree.grid;
  }

  lemma CornerThreeSteps()
    ensures CornerThree.Valid()
    ensures Entry(CornerThree) == [((0, 0), Right)]
    ensures StepOf(CornerThree)(((0, 0), Right)) == [((0, 1), Right)]
    ensures StepOf(CornerThree)(((0, 1), Right)) == [((0, 2), Down)]
    ensures StepOf(CornerThree)(((0, 2), Down)) == [((1, 2), Down)]
    ensures StepOf(CornerThree)(((1, 2), Down)) == [((2, 2), Down)]
    ensures StepOf(CornerThree)(((2, 2), Down)) == []
  {
  }

  /** The beams the corner layout's entry reaches: along the top row, then
      down the right column. */
  const CornerHead: set<Beam> := {((0, 0), Right), ((0, 1), Right), ((0, 2), Down)}
  const CornerTail: set<Beam> := {((1, 2), Down), ((2, 2), Down)}
  const CornerBeams: set<Beam> := CornerHead + CornerTail

  const CornerTiles: set<Coordinate> := {(0, 0), (0, 1), (0, 2), (1, 2), (2, 2)}

  lemma CornerHeadClosed()
    ensures forall b :: b in CornerHead ==> forall s :: s in StepOf(CornerThree)(b) ==> s in CornerBeams
  {
    CornerThreeSteps();
  }

  lemma CornerTailClosed()
    ensures forall b :: b in CornerTail ==> forall s :: s in StepOf(CornerThree)(b) ==> s in CornerBeams
  {
    CornerThreeSteps();
  }

  lemma CornerClosed()
    ensures Closed(StepOf(CornerThree), CornerBeams, [])
  {
    CornerHeadClosed();
    CornerTailClosed();
  }

  lemma CornerReachedAll()
    ensures CornerThree.Valid()
    ensures forall b :: b in CornerBeams ==> CornerThree.InGrid(b.0) && Reaches(StepOf(CornerThree), Entry(CornerThree), b)
  {
    CornerThreeSteps();
    var next, entry := StepOf(CornerThree), Entry(CornerThree);
    StartReached(next, entry, ((0, 0), Right));
    ReachesOnward(next, entry, ((0, 0), Right));
    ReachesOnward(next, entry, ((0, 1), Right));
    ReachesOnward(next, entry, ((0, 2), Down));
    ReachesOnward(next, entry, ((1, 2), Down));
  }

  lemma CornerThreeReached()
    ensures CornerThree.Valid()
    ensures Reached(CornerThree, Entry(CornerThree)) == CornerBeams
  {
    CornerThreeSteps();
    CornerClosed();
    CornerReachedAll();
    ReachedExactly(CornerThree, Entry(CornerThree), CornerBeams);
  }

  lemma CornerTilesCovered()
    ensures (set b | b in CornerBeams :: b.0) == CornerTiles && |CornerTiles| == 5
  {
    var e := set b | b in CornerBeams :: b.0;
    assert ((0, 0), Right) in CornerBeams && ((0, 1), Right) in CornerBeams;
    assert ((0, 2), Down) in CornerBeams && ((1, 2), Down) in CornerBeams && ((2, 2), Down) in CornerBeams;
    assert e == CornerTiles;
  }

  /** The corner mirror turns the beam down the right column: five tiles are
      energized. */
  lemma CornerMirrorExample()
    ensures CornerThree.Valid() && |Energized(CornerThree, Entry(CornerThree))| == 5
  {
    CornerThreeReached();
    CornerTilesCovered();
  }

  /** The layout `.\.` / `.-.` / `...`, whose mirror sends the beam into a
      splitter. */
  const SplitThree := Layout([[Empty, MirrorDown, Empty], [Empty, Horizontal, Empty], [Empty, Empty, Empty]])

  lemma SplitThreeParses()
    ensures ParseLayout([".\\.", ".-.", "..."]) == Ok(SplitThree)
  {
    ParseGlyphs(".\\.", [Empty, MirrorDown, Empty]);
    ParseGlyphs(".-.", [Empty, Horizontal, Empty]);
    ParseGlyphs("...", [Empty, Empty, Empty]);
    var lines := [".\\.", ".-.", "..."];
    assert ParseGrid(lines).Ok?;
    assert ParseGrid(lines).value == SplitThree.grid;
  }

  lemma SplitThreeTopSteps()
    ensures SplitThree.Valid()
    ensures Entry(SplitThree) == [((0, 0), Right)]
    ensures StepOf(SplitThree)(((0, 0), Right)) == [((0, 1), Down)]
    ensures StepOf(SplitThree)(((0, 1), Down)) == [((1, 1), Left), ((1, 1), Right)]
  {
  }

  lemma SplitThreeMiddleSteps()
    ensures SplitThree.Valid()
    ensures StepOf(SplitThree)(((1, 1), Left)) == [((1, 0), Left)]
    ensures StepOf(SplitThree)(((1, 1), Right)) == [((1, 2), Right)]
    ensures StepOf(SplitThree)(((1, 0), Left)) == []
    ensures StepOf(SplitThree)(((1, 2), Right)) == []
  {
  }

  lemma SplitThreeSteps()
    ensures SplitThree.Valid()
    ensures Entry(SplitThree) == [((0, 0), Right)]
    ensures StepOf(SplitThree)(((0, 0), Right)) == [((0, 1), Down)]
    ensures StepOf(SplitThree)(((0, 1), Down)) == [((1, 1), Left), ((1, 1), Right)]
    ensures StepOf(SplitThree)(((1, 1), Left)) == [((1, 0), Left)]
    ensures StepOf(SplitThree)(((1, 1), Right)) == [((1, 2), Right)]
    ensures StepOf(SplitThree)(((1, 0), Left)) == []
    ensures StepOf(SplitThree)(((1, 2), Right)) == []
  {
    SplitThreeTopSteps();
    SplitThreeMiddleSteps();
  }

  /** The beams the split layout's entry reaches: down into the splitter and
      out to both sides. */
  const SplitHead: set<Beam> := {((0, 0), Right), ((0, 1), Down), ((1, 1), Left)}
  const SplitTail: set<Beam> := {((1, 1), Right), ((1, 0), Left), ((1, 2), Right)}
  const SplitBeams: set<Beam> := SplitHead + SplitTail

  const SplitTiles: set<Coordinate> := {(0, 0), (0, 1), (1, 1), (1, 0), (1, 2)}

  lemma SplitHeadClosed()
    ensures forall b :: b in SplitHead ==> forall s :: s in StepOf(SplitThree)(b) ==> s in SplitBeams
  {
    SplitThreeSteps();
  }

  lemma SplitTailClosed()
    ensures forall b :: b in SplitTail ==> forall s :: s in StepOf(SplitThree)(b) ==> s in SplitBeams
  {
    SplitThreeSteps();
  }

  lemma SplitClosed()
    ensures Closed(StepOf(SplitThree), SplitBeams, [])
  {
    SplitHeadClosed();
    SplitTailClosed();
  }

  lemma SplitReachedAll()
    ensures SplitThree.Valid()
    ensures forall b :: b in SplitBeams ==> SplitThree.InGrid(b.0) && Reaches(StepOf(SplitThree), Entry(SplitThree), b)
  {
    SplitThreeSteps();
    var next, entry := StepOf(SplitThree), Entry(SplitThree);
    StartReached(next, entry, ((0, 0), Right));
    ReachesOnward(next, entry, ((0, 0), Right));
    ReachesOnward(next, entry, ((0, 1), Down));
    ReachesOnward(next, entry, ((1, 1), Left));
    ReachesOnward(next, entry, ((1, 1), Right));
  }

  lemma SplitThreeReached()
    ensures SplitThree.Valid()
    ensures Reached(SplitThree, Entry(SplitThree)) == SplitBeams
  {
    SplitThreeSteps();
    SplitClosed();
    SplitReachedAll();
    ReachedExactly(SplitThree, Entry(SplitThree), SplitBeams);
  }

  lemma SplitTilesCovered()
    ensures (set b | b in SplitBeams :: b.0) == SplitTiles && |SplitTiles| == 5
  {
    var e := set b | b in SplitBeams :: b.0;
    assert ((0, 0), Right) in SplitBeams && ((0, 1), Down) in SplitBeams && ((1, 1), Left) in SplitBeams;
    assert ((1, 0), Left) in SplitBeams && ((1, 2), Right) in SplitBeams;
    assert e == SplitTiles;
  }

  /** The beam turns down into the splitter, which sends it off both sides:
      five tiles are energized, the splitter's counted once. */
  lemma SplitterExample()
    ensures SplitThree.Valid() && |Energized(SplitThree, Entry(SplitThree))| == 5
  {
    SplitThreeReached();
    SplitTilesCovered();
  }

  /** The layout `\/.` / `...` / `\..`, whose first tile is a mirror. */
  const TurnThree := Layout([[MirrorDown, MirrorUp, Empty], [Empty, Empty, Empty], [MirrorDown, Empty, Empty]])

  lemma TurnThreeParses()
    ensures ParseLayout(["\\/.", "...", "\\.."]) == Ok(TurnThree)
  {
    ParseGlyphs("\\/.", [MirrorDown, MirrorUp, Empty]);
    ParseGlyphs("...", [Empty, Empty, Empty]);
    ParseGlyphs("\\..", [MirrorDown, Empty, Empty]);
    var lines := ["\\/.", "...", "\\.."];
    assert ParseGrid(lines).Ok?;
    assert ParseGrid(lines).value == TurnThree.grid;
  }

  lemma TurnThreeSteps()
    ensures TurnThree.Valid()
    ensures Entry(TurnThree) == [((0, 0), Down)]
    ensures StepOf(TurnThree)(((0, 0), Down)) == [((1, 0), Down)]
    ensures StepOf(TurnThree)(((1, 0), Down)) == [((2, 0), Right)]
    ensures StepOf(TurnThree)(((2, 0), Right)) == [((2, 1), Right)]
    ensures StepOf(TurnThree)(((2, 1), Right)) == [((2, 2), Right)]
    ensures StepOf(TurnThree)(((2, 2), Right)) == []
  {
  }

  /** The beams the turning layout's entry reaches: down the left column,
      then along the bottom row. */
  const TurnHead: set<Beam> := {((0, 0), Down), ((1, 0), Down), ((2, 0), Right)}
  const TurnTail: set<Beam> := {((2, 1), Right), ((2, 2), Right)}
  const TurnBeams: set<Beam> := TurnHead + TurnTail

  const TurnTiles: set<Coordinate> := {(0, 0), (1, 0), (2, 0), (2, 1), (2, 2)}

  lemma TurnHeadClosed()
    ensures forall b :: b in TurnHead ==> forall s :: s in StepOf(TurnThree)(b) ==> s in TurnBeams
  {
    TurnThreeSteps();
  }

  lemma TurnTailClosed()
    ensures forall b :: b in TurnTail ==> forall s :: s in StepOf(TurnThree)(b) ==> s in TurnBeams
  {
    TurnThreeSteps();
  }

  lemma TurnClosed()
    ensures Closed(StepOf(TurnThree), TurnBeams, [])
  {
    TurnHeadClosed();
    TurnTailClosed();
  }

  lemma TurnReachedAll()
    ensures TurnThree.Valid()
    ensures forall b :: b in TurnBeams ==> TurnThree.InGrid(b.0) && Reaches(StepOf(TurnThree), Entry(TurnThree), b)
  {
    TurnThreeSteps();
    var next, entry := StepOf(TurnThree), Entry(TurnThree);
    StartReached(next, entry, ((0, 0), Down));
    ReachesOnward(next, entry, ((0, 0), Down));
    ReachesOnward(next, entry, ((1, 0), Down));
    ReachesOnward(next, entry, ((2, 0), Right));
    ReachesOnward(next, entry, ((2, 1), Right));
  }

  lemma TurnThreeReached()
    ensures TurnThree.Valid()
    ensures Reached(TurnThree, Entry(TurnThree)) == TurnBeams
  {
    TurnThreeSteps();
    TurnClosed();
    TurnReachedAll();
    ReachedExactly(TurnThree, Entry(TurnThree), TurnBeams);
  }

  lemma TurnTilesCovered()
    ensures (set b | b in TurnBeams :: b.0) == TurnTiles && |TurnTiles| == 5
  {
    var e := set b | b in TurnBeams :: b.0;
    assert ((0, 0), Down) in TurnBeams && ((1, 0), Down) in TurnBeams;
    assert ((2, 0), Right) in TurnBeams && ((2, 1), Right) in TurnBeams && ((2, 2), Right) in TurnBeams;
    assert e == TurnTiles;
  }

  /** The first tile already turns the beam down; the bottom left mirror turns
      it right along the bottom row: five tiles are energized. */
  lemma ImmediateMirrorExample()
    ensures TurnThree.Valid() && |Energized(TurnThree, Entry(TurnThree))| == 5
  {
    TurnThreeReached();
    TurnTilesCovered();
  }
}
