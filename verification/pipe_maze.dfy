/** The pipe maze (prob10): a rectangular grid of pipe tiles holding one loop
    through the start tile `S`. The model covers parsing, the connection table,
    bounds-checked moves, one step along the loop, the search for the start and
    its two exits, the loop tracing of both puzzle parts and the row-major
    parity scan that counts the tiles enclosed by the loop.
    Coordinates are (row, column) pairs. */
module PipeMaze {
  import opened Wrappers

  // ---------------------------------------------------------------------------
  // Compass directions
  // ---------------------------------------------------------------------------

  datatype Cardinal = North | South | West | East

  /** Row offset of one step in direction `d`. */
  function DRow(d: Cardinal): int {
    match d
    case North => -1
    case South => 1
    case _ => 0
  }

  /** Column offset of one step in direction `d`. */
  function DCol(d: Cardinal): int {
    match d
    case West => -1
    case East => 1
    case _ => 0
  }

  /** The direction pointing back: a step in `d` followed by a step in
      `Opposite(d)` ends where it started. */
  function Opposite(d: Cardinal): (r: Cardinal)
    ensures r != d
    ensures DRow(r) == -DRow(d) && DCol(r) == -DCol(d)
  {
    match d
    case North => South
    case South => North
    case West => East
    case East => West
  }

  /** The order in which the start's exits are probed and listed. */
  function Rank(d: Cardinal): nat {
    match d
    case North => 0
    case South => 1
    case West => 2
    case East => 3
  }

  // ---------------------------------------------------------------------------
  // Tiles
  // ---------------------------------------------------------------------------

  /** A tile; `Ground` is the source's `Pipe::None`, the `.` tile. */
  datatype Pipe =
    | Horizontal
    | Vertical
    | CornerNorthEast
    | CornerNorthWest
    | CornerSouthEast
    | CornerSouthWest
    | Start
    | Ground

  datatype Error =
    | InvalidPipe
    | StartNotFound
    | InvalidCoordinate
    | InvalidNode
    | InvalidNextCoordinate
    | InvalidNextNode
    | WrongStartDirections
    | InvalidStartCoordinate

  /** The one-character text of each tile. */
  function Glyph(p: Pipe): string {
    match p
    case Horizontal => "-"
    case Vertical => "|"
    case CornerNorthEast => "L"
    case CornerNorthWest => "J"
    case CornerSouthEast => "F"
    case CornerSouthWest => "7"
    case Start => "S"
    case Ground => "."
  }

  predicate IsPipeChar(c: char) {
    c in "-|LJF7S."
  }

  /** Parses one tile: succeeds exactly on the eight glyphs, each giving the
      tile whose glyph it is. */
  function ParsePipe(s: string): (r: Result<Pipe, Error>)
    ensures r.Ok? ==> Glyph(r.value) == s
    ensures r.Err? ==> r.error == InvalidPipe && forall p: Pipe :: Glyph(p) != s
    ensures |s| == 1 ==> (r.Ok? <==> IsPipeChar(s[0]))
  {
    if s == "-" then Ok(Horizontal)
    else if s == "|" then Ok(Vertical)
    else if s == "L" then Ok(CornerNorthEast)
    else if s == "J" then Ok(CornerNorthWest)
    else if s == "F" then Ok(CornerSouthEast)
    else if s == "7" then Ok(CornerSouthWest)
    else if s == "S" then Ok(Start)
    else if s == "." then Ok(Ground)
    else Err(InvalidPipe)
  }

  /** Parsing a tile's glyph gives the tile back. */
  lemma ParseGlyph(p: Pipe)
    ensures ParsePipe(Glyph(p)) == Ok(p)
  {
  }

  /** The six tiles that are pieces of pipe. */
  predicate IsPipe(p: Pipe) {
    p != Start && p != Ground
  }

  predicate IsCorner(p: Pipe) {
    p == CornerNorthEast || p == CornerNorthWest || p == CornerSouthEast || p == CornerSouthWest
  }

  /** The two ends of a pipe, in the order the source lists them. */
  function Ends(p: Pipe): (Cardinal, Cardinal)
    requires IsPipe(p)
  {
    match p
    case Horizontal => (East, West)
    case Vertical => (North, South)
    case CornerNorthEast => (North, East)
    case CornerNorthWest => (North, West)
    case CornerSouthEast => (South, East)
    case CornerSouthWest => (South, West)
  }

  /** The directions a tile connects to: two distinct ones for each pipe and
      none for the start and the ground. A straight pipe joins two opposite
      sides; a corner joins one vertical and one horizontal side. */
  function ConnectsTo(p: Pipe): (r: set<Cardinal>)
    ensures !IsPipe(p) ==> r == {}
    ensures IsPipe(p) ==> |r| == 2
    ensures p == Horizontal || p == Vertical ==> r == {Ends(p).0, Opposite(Ends(p).0)}
    ensures IsCorner(p) ==> (North in r) != (South in r) && (West in r) != (East in r)
  {
    if IsPipe(p) then {Ends(p).0, Ends(p).1} else {}
  }

  /** The end a pipe is left by when it was entered from `cameFrom`: the other
      connection. When `cameFrom` is not a connection the source takes whichever
      element a hash set yields first; the model then takes the first listed. */
  function Exit(p: Pipe, cameFrom: Cardinal): (out: Cardinal)
    requires IsPipe(p)
    ensures out in ConnectsTo(p)
    ensures cameFrom in ConnectsTo(p) ==> out != cameFrom && ConnectsTo(p) == {cameFrom, out}
  {
    if cameFrom == Ends(p).0 then Ends(p).1 else Ends(p).0
  }

  /** Leaving by the exit of the exit leads back out where one came in. */
  lemma ExitInvolution(p: Pipe, cameFrom: Cardinal)
    requires IsPipe(p) && cameFrom in ConnectsTo(p)
    ensures Exit(p, Exit(p, cameFrom)) == cameFrom
  {
  }

  // ---------------------------------------------------------------------------
  // The map
  // ---------------------------------------------------------------------------

  type Coord = (nat, nat)

  predicate Rectangular<T>(rows: seq<seq<T>>) {
    forall i :: 0 <= i < |rows| ==> |rows[i]| == |rows[0]|
  }

  datatype PipeMap = PipeMap(nodes: seq<seq<Pipe>>, height: nat, width: nat) {

    /** The shape every parsed, rectangular input has. */
    ghost predicate Valid() {
      height == |nodes| && height > 0 && width == |nodes[0]| && Rectangular(nodes)
    }

    predicate InBounds(c: Coord) {
      c.0 < height && c.1 < width
    }

    /** The same test on integer coordinates, which may be negative. */
    predicate InGrid(row: int, col: int) {
      0 <= row < height && 0 <= col < width
    }
  }

  function ParseRow(line: string): (r: Result<seq<Pipe>, Error>)
    ensures r.Ok? <==> forall j :: 0 <= j < |line| ==> IsPipeChar(line[j])
    ensures r.Err? ==> r.error == InvalidPipe
    ensures r.Ok? ==> |r.value| == |line| && forall j :: 0 <= j < |line| ==> Glyph(r.value[j]) == [line[j]]
  {
    if line == [] then Ok([])
    else
      var p :- ParsePipe([line[0]]);
      var rest :- ParseRow(line[1..]);
      assert forall j :: 1 <= j < |line| ==> line[j] == line[1..][j - 1];
      Ok([p] + rest)
  }

  function ParseRows(lines: seq<string>): (r: Result<seq<seq<Pipe>>, Error>)
    ensures r.Ok? <==> forall i, j :: 0 <= i < |lines| && 0 <= j < |lines[i]| ==> IsPipeChar(lines[i][j])
    ensures r.Err? ==> r.error == InvalidPipe
    ensures r.Ok? ==> |r.value| == |lines|
    ensures r.Ok? ==> forall i :: 0 <= i < |lines| ==>
      |r.value[i]| == |lines[i]| && forall j :: 0 <= j < |lines[i]| ==> Glyph(r.value[i][j]) == [lines[i][j]]
  {
    if lines == [] then Ok([])
    else
      var row :- ParseRow(lines[0]);
      var rest :- ParseRows(lines[1..]);
      assert forall i :: 1 <= i < |lines| ==> lines[i] == lines[1..][i - 1];
      Ok([row] + rest)
  }

  /** Parses the whole map: it fails exactly when some character is not a
      tile glyph; otherwise every row keeps its tiles in order, the height is
      the number of lines and the width the length of the first line. */
  function ParseMap(lines: seq<string>): (r: Result<PipeMap, Error>)
    requires |lines| > 0  // the source reads the first row unconditionally
    ensures r.Ok? <==> forall i, j :: 0 <= i < |lines| && 0 <= j < |lines[i]| ==> IsPipeChar(lines[i][j])
    ensures r.Err? ==> r.error == InvalidPipe
    ensures r.Ok? ==> r.value.height == |lines| && r.value.width == |lines[0]| && |r.value.nodes| == |lines|
    ensures r.Ok? ==> forall i :: 0 <= i < |lines| ==>
      |r.value.nodes[i]| == |lines[i]| && forall j :: 0 <= j < |lines[i]| ==> Glyph(r.value.nodes[i][j]) == [lines[i][j]]
    ensures r.Ok? && Rectangular(lines) ==> r.value.Valid()
  {
    var nodes :- ParseRows(lines);
    Ok(PipeMap(nodes, |nodes|, |nodes[0]|))
  }

  /** The tile at `c`; fails exactly when `c` lies outside the map. */
  function GetNode(m: PipeMap, c: Coord): (r: Result<Pipe, Error>)
    requires m.Valid()
    ensures r.Err? <==> !m.InBounds(c)
    ensures r.Err? ==> r.error == InvalidCoordinate
    ensures r.Ok? ==> r.value == m.nodes[c.0][c.1]
  {
    if c.0 >= m.height || c.1 >= m.width then Err(InvalidCoordinate)
    else Ok(m.nodes[c.0][c.1])
  }

  /** One step from `c` in direction `d`, refused exactly at the edge being
      crossed; a step from inside the map stays inside it. */
  function ShiftCoord(m: PipeMap, c: Coord, d: Cardinal): (r: Option<Coord>)
    requires d == South ==> m.height > 0  // the source computes height - 1 in a usize
    requires d == East ==> m.width > 0  // and width - 1
    ensures r.Some? ==> r.value.0 == c.0 + DRow(d) && r.value.1 == c.1 + DCol(d)
    ensures m.InBounds(c) ==> (r.Some? <==> m.InGrid(c.0 + DRow(d), c.1 + DCol(d)))
    ensures r.None? <==> ((d == North && c.0 == 0) || (d == South && c.0 == m.height - 1)
                       || (d == West && c.1 == 0) || (d == East && c.1 == m.width - 1))
  {
    match d
    case North => if c.0 == 0 then None else Some((c.0 - 1, c.1))
    case South => if c.0 == m.height - 1 then None else Some((c.0 + 1, c.1))
    case West => if c.1 == 0 then None else Some((c.0, c.1 - 1))
    case East => if c.1 == m.width - 1 then None else Some((c.0, c.1 + 1))
  }

  // ---------------------------------------------------------------------------
  // Following the loop
  // ---------------------------------------------------------------------------

  /** One step along the loop: from the pipe at `c`, entered from `cameFrom`,
      leave by its other end. The result is the next tile and the side it is
      entered from, which is the opposite of the move. It fails on a start or
      ground tile, on a move off the map and on a move onto ground. */
  function GetNextNode(m: PipeMap, c: Coord, cameFrom: Cardinal): (r: Result<(Coord, Cardinal), Error>)
    requires m.Valid()
    ensures !m.InBounds(c) ==> r == Err(InvalidCoordinate)
    ensures m.InBounds(c) && !IsPipe(m.nodes[c.0][c.1]) ==> r == Err(InvalidNode)
    ensures r.Ok? ==> m.InBounds(r.value.0) && m.nodes[r.value.0.0][r.value.0.1] != Ground
    ensures m.InBounds(c) && IsPipe(m.nodes[c.0][c.1]) ==>
      var out := Exit(m.nodes[c.0][c.1], cameFrom);
      var row, col := c.0 + DRow(out), c.1 + DCol(out);
      && (!m.InGrid(row, col) ==> r == Err(InvalidNextCoordinate))
      && (m.InGrid(row, col) && m.nodes[row][col] == Ground ==> r == Err(InvalidNextNode))
      && (r.Ok? ==> r.value == ((row, col), Opposite(out)))
  {
    var p :- GetNode(m, c);
    if p == Ground || p == Start then Err(InvalidNode)
    else
      var out := Exit(p, cameFrom);
      var row, col := c.0 + DRow(out), c.1 + DCol(out);
      // A move North from row 0 or West from column 0 underflows a usize in the
      // source; the bounds check that follows rejects it like any other.
      if row < 0 || col < 0 || row >= m.height || col >= m.width then Err(InvalidNextCoordinate)
      // The source looks the tile up with get_node, which cannot fail here.
      else if m.nodes[row][col] == Ground then Err(InvalidNextNode)
      else Ok(((row, col), Opposite(out)))
  }

  /** When the pipe was entered by one of its ends, a successful step leaves by
      the other end and lands where `ShiftCoord` does: both bounds checks agree. */
  lemma NextNodeLeavesByOtherEnd(m: PipeMap, c: Coord, cameFrom: Cardinal)
    requires m.Valid() && m.InBounds(c) && IsPipe(m.nodes[c.0][c.1])
    requires cameFrom in ConnectsTo(m.nodes[c.0][c.1])
    ensures var p := m.nodes[c.0][c.1];
      var out := Exit(p, cameFrom);
      && out in ConnectsTo(p) && out != cameFrom
      && (ShiftCoord(m, c, out).None? ==> GetNextNode(m, c, cameFrom) == Err(InvalidNextCoordinate))
      && (GetNextNode(m, c, cameFrom).Ok? ==>
            && ShiftCoord(m, c, out) == Some(GetNextNode(m, c, cameFrom).value.0)
            && GetNextNode(m, c, cameFrom).value.1 == Opposite(out))
  {
  }

  /** A `|` entered from the West, a side it does not connect to, is left by
      its first listed end, North: here onto ground above it, although its
      other end leads off the bottom edge. */
  lemma OffConnectionExample()
    ensures var m := PipeMap([[Ground, Ground], [Horizontal, Vertical]], 2, 2);
      && m.Valid() && West !in ConnectsTo(Vertical)
      && Exit(Vertical, West) == North
      && ShiftCoord(m, (1, 1), South).None?
      && GetNextNode(m, (1, 1), West) == Err(InvalidNextNode)
  {
  }

  /** The tile reached after `k` steps from `c`. */
  function Walk(m: PipeMap, c: Coord, cameFrom: Cardinal, k: nat): (r: Result<(Coord, Cardinal), Error>)
    requires m.Valid()
    ensures k > 0 && r.Ok? ==> m.InBounds(r.value.0) && m.nodes[r.value.0.0][r.value.0.1] != Ground
  {
    if k == 0 then Ok((c, cameFrom))
    else
      var here :- Walk(m, c, cameFrom, k - 1);
      GetNextNode(m, here.0, here.1)
  }

  /** A failed walk fails one step further too. */
  lemma WalkFailureSticks(m: PipeMap, c: Coord, cameFrom: Cardinal, k: nat)
    requires m.Valid() && Walk(m, c, cameFrom, k).Err?
    ensures Walk(m, c, cameFrom, k + 1) == Err(Walk(m, c, cameFrom, k).error)
  {
  }

  // ---------------------------------------------------------------------------
  // The start and its exits
  // ---------------------------------------------------------------------------

  predicate RowMajorBefore(a: Coord, b: Coord) {
    a.0 < b.0 || (a.0 == b.0 && a.1 < b.1)
  }

  /** Index of the first start tile of a row. */
  function FirstStartInRow(row: seq<Pipe>): (r: Option<nat>)
    ensures r.Some? ==> r.value < |row| && row[r.value] == Start
    ensures forall j :: 0 <= j < |row| && row[j] == Start ==> r.Some? && r.value <= j
  {
    if |row| == 0 then None
    else match FirstStartInRow(row[..|row| - 1])
      case Some(j) => Some(j)
      case None => if row[|row| - 1] == Start then Some(|row| - 1) else None
  }

  /** The first start tile in row-major order, if any. */
  function StartSearch(nodes: seq<seq<Pipe>>): (r: Option<Coord>)
    ensures r.Some? ==> r.value.0 < |nodes| && r.value.1 < |nodes[r.value.0]| && nodes[r.value.0][r.value.1] == Start
    ensures forall i, j :: 0 <= i < |nodes| && 0 <= j < |nodes[i]| && nodes[i][j] == Start ==>
      r.Some? && !RowMajorBefore((i, j), r.value)
  {
    if |nodes| == 0 then None
    else match StartSearch(nodes[..|nodes| - 1])
      case Some(c) => Some(c)
      case None =>
        match FirstStartInRow(nodes[|nodes| - 1])
        case Some(j) => Some((|nodes| - 1, j))
        case None => None
  }

  /** Scans the rows in order and returns the first start tile. */
  method FindStart(m: PipeMap) returns (r: Result<Coord, Error>)
    ensures StartSearch(m.nodes).None? ==> r == Err(StartNotFound)
    ensures StartSearch(m.nodes).Some? ==> r == Ok(StartSearch(m.nodes).value)
  {
    for x := 0 to |m.nodes|
      invariant forall i, j :: 0 <= i < x && 0 <= j < |m.nodes[i]| ==> m.nodes[i][j] != Start
    {
      for y := 0 to |m.nodes[x]|
        invariant forall j :: 0 <= j < y ==> m.nodes[x][j] != Start
      {
        if m.nodes[x][y] == Start {
          return Ok((x, y));
        }
      }
    }
    return Err(StartNotFound);
  }

  /** The neighbour of `s` in direction `d` is on the map and has an end
      pointing back at `s`. */
  ghost predicate LinksBack(m: PipeMap, s: Coord, d: Cardinal)
    requires m.Valid()
  {
    var row, col := s.0 + DRow(d), s.1 + DCol(d);
    m.InGrid(row, col) && Opposite(d) in ConnectsTo(m.nodes[row][col])
  }

  /** One of the four probes around the start. The source looks the
      neighbour up with get_node, which cannot fail on a shifted in-bounds
      coordinate, so its error path is left out. */
  function Probe(m: PipeMap, s: Coord, d: Cardinal): (r: bool)
    requires m.Valid() && m.InBounds(s)
    ensures r <==> LinksBack(m, s, d)
  {
    match ShiftCoord(m, s, d)
    case None => false
    case Some(n) => Opposite(d) in ConnectsTo(m.nodes[n.0][n.1])
  }

  /** `d1` and `d2` are the only two directions `links` holds for. */
  ghost predicate ExactlyPair(links: Cardinal -> bool, d1: Cardinal, d2: Cardinal) {
    d1 != d2 && forall d :: links(d) <==> d == d1 || d == d2
  }

  /** The directions around `s` that link back to it. */
  ghost function LinksOf(m: PipeMap, s: Coord): Cardinal -> bool
    requires m.Valid()
  {
    d => LinksBack(m, s, d)
  }

  /** Exactly two directions around `s` link back to it. */
  ghost predicate TwoLinks(m: PipeMap, s: Coord)
    requires m.Valid()
  {
    exists d1, d2 :: ExactlyPair(LinksOf(m, s), d1, d2)
  }

  /** The directions whose flag is set, in North, South, West, East order. */
  function Listed(north: bool, south: bool, west: bool, east: bool): seq<Cardinal> {
    (if north then [North] else []) + (if south then [South] else [])
    + (if west then [West] else []) + (if east then [East] else [])
  }

  /** Listing the four flags of `links` gives exactly the directions it
      holds for. */
  lemma ListedMembers(links: Cardinal -> bool, d: Cardinal)
    ensures d in Listed(links(North), links(South), links(West), links(East)) <==> links(d)
  {
    var n, s, w, e := links(North), links(South), links(West), links(East);
    var front := (if n then [North] else []) + (if s then [South] else []);
    var back := (if w then [West] else []) + (if e then [East] else []);
    assert Listed(n, s, w, e) == front + back;
    assert d in front <==> (d == North && n) || (d == South && s);
    assert d in back <==> (d == West && w) || (d == East && e);
  }

  /** The listed directions come in rank order. */
  lemma ListedInOrder(north: bool, south: bool, west: bool, east: bool)
    ensures var dirs := Listed(north, south, west, east);
      forall i, j :: 0 <= i < j < |dirs| ==> Rank(dirs[i]) < Rank(dirs[j])
  {
  }

  /** Two directions are listed exactly when `links` holds for a pair. */
  lemma ListedPair(links: Cardinal -> bool)
    ensures |Listed(links(North), links(South), links(West), links(East))| == 2
      <==> exists d1, d2 :: ExactlyPair(links, d1, d2)
  {
    var dirs := Listed(links(North), links(South), links(West), links(East));
    if |dirs| == 2 {
      forall d ensures links(d) <==> d == dirs[0] || d == dirs[1] {
        ListedMembers(links, d);
      }
      ListedInOrder(links(North), links(South), links(West), links(East));
      assert ExactlyPair(links, dirs[0], dirs[1]);
    }
    if exists d1, d2 :: ExactlyPair(links, d1, d2) {
      var d1, d2 :| ExactlyPair(links, d1, d2);
      assert links(North) == (North == d1 || North == d2);
      assert links(South) == (South == d1 || South == d2);
      assert links(West) == (West == d1 || West == d2);
      assert links(East) == (East == d1 || East == d2);
    }
  }

  /** The start's two exits: they are listed in North, South, West, East
      order, and they are exactly the directions whose neighbour links back.
      Any other number of such neighbours is an error. */
  function GetStartDirections(m: PipeMap): (r: Result<seq<Cardinal>, Error>)
    requires m.Valid()
    ensures StartSearch(m.nodes).None? ==> r == Err(StartNotFound)
    ensures StartSearch(m.nodes).Some? ==>
      var s := StartSearch(m.nodes).value;
      && (r.Ok? <==> TwoLinks(m, s))
      && (r.Err? ==> r.error == WrongStartDirections)
      && (r.Ok? ==> |r.value| == 2 && Rank(r.value[0]) < Rank(r.value[1])
                    && forall d :: d in r.value <==> LinksBack(m, s, d))
  {
    match StartSearch(m.nodes)
    case None => Err(StartNotFound)
    case Some(s) =>
      var dirs := Listed(Probe(m, s, North), Probe(m, s, South), Probe(m, s, West), Probe(m, s, East));
      ListedInOrder(Probe(m, s, North), Probe(m, s, South), Probe(m, s, West), Probe(m, s, East));
      ListedPair(LinksOf(m, s));
      forall d ensures d in dirs <==> LinksBack(m, s, d) {
        ListedMembers(LinksOf(m, s), d);
      }
      if |dirs| != 2 then Err(WrongStartDirections) else Ok(dirs)
  }

  // ---------------------------------------------------------------------------
  // Counting enclosed tiles
  // ---------------------------------------------------------------------------

  /** The state of the row-major scan: whether the scan is inside the loop,
      the tiles counted so far and the last north-east or south-east corner. */
  datatype ScanState = ScanState(inLoop: bool, count: nat, prevCorner: Option<Pipe>)

  const ScanStart: ScanState := ScanState(false, 0, None)

  /** Crossing a vertical pipe or the start flips the inside flag, and so do
      an F..J and an L..7 run (the loop crosses the row there); a horizontal
      pipe never flips it. Only ground tiles inside the loop are counted, and
      only L and F tiles are remembered as the previous corner. */
  function ScanStep(st: ScanState, p: Pipe): (r: ScanState)
    ensures r.inLoop != st.inLoop <==>
      || p == Vertical || p == Start
      || (p == CornerNorthWest && st.prevCorner == Some(CornerSouthEast))
      || (p == CornerSouthWest && st.prevCorner == Some(CornerNorthEast))
    ensures p == Horizontal ==> r == st
    ensures r.count == if p == Ground && st.inLoop then st.count + 1 else st.count
    ensures r.prevCorner == if p == CornerNorthEast || p == CornerSouthEast then Some(p) else st.prevCorner
  {
    match p
    case Vertical => st.(inLoop := !st.inLoop)
    case Start => st.(inLoop := !st.inLoop)
    case Horizontal => st
    case CornerNorthEast => st.(prevCorner := Some(p))
    case CornerSouthEast => st.(prevCorner := Some(p))
    case CornerNorthWest =>
      if st.prevCorner == Some(CornerSouthEast) then st.(inLoop := !st.inLoop) else st
    case CornerSouthWest =>
      if st.prevCorner == Some(CornerNorthEast) then st.(inLoop := !st.inLoop) else st
    case Ground => if st.inLoop then st.(count := st.count + 1) else st
  }

  /** The scan state after the tiles `cells`, in order. */
  function Scan(cells: seq<Pipe>): ScanState {
    if cells == [] then ScanStart else ScanStep(Scan(cells[..|cells| - 1]), cells[|cells| - 1])
  }

  /** The tiles of `rows` in row-major order. */
  function Flatten(rows: seq<seq<Pipe>>): seq<Pipe> {
    if rows == [] then [] else Flatten(rows[..|rows| - 1]) + rows[|rows| - 1]
  }

  function GroundCount(cells: seq<Pipe>): nat {
    if cells == [] then 0 else GroundCount(cells[..|cells| - 1]) + (if cells[|cells| - 1] == Ground then 1 else 0)
  }

  /** The scan counts each ground tile at most once and nothing else. */
  lemma {:induction false} ScanCountsGround(cells: seq<Pipe>)
    ensures Scan(cells).count <= GroundCount(cells) <= |cells|
  {
    if cells != [] {
      ScanCountsGround(cells[..|cells| - 1]);
    }
  }

  /** A rectangular map flattens to height times width tiles. */
  lemma {:induction false} FlattenSize(rows: seq<seq<Pipe>>, width: nat)
    requires forall i :: 0 <= i < |rows| ==> |rows[i]| == width
    ensures |Flatten(rows)| == |rows| * width
  {
    if rows != [] {
      var k := |rows| - 1;
      FlattenSize(rows[..k], width);
      assert |Flatten(rows)| == |Flatten(rows[..k])| + |rows[k]|;
      assert k * width + width == |rows| * width;
    }
  }

  lemma ScanOneMore(done: seq<Pipe>, row: seq<Pipe>, y: nat)
    requires y < |row|
    ensures Scan(done + row[..y + 1]) == ScanStep(Scan(done + row[..y]), row[y])
  {
    var next := done + row[..y + 1];
    assert next[..|next| - 1] == done + row[..y];
  }

  lemma FlattenOneMore(rows: seq<seq<Pipe>>, x: nat)
    requires x < |rows|
    ensures Flatten(rows[..x + 1]) == Flatten(rows[..x]) + rows[x][..|rows[x]|]
  {
    assert rows[..x + 1][..x] == rows[..x];
    assert rows[x][..|rows[x]|] == rows[x];
  }

  /** Counts the tiles inside the loop with one row-major scan. The map is
      expected to hold nothing but the loop; the scan carries its state from
      one row into the next. */
  method CountInternalTiles(m: PipeMap) returns (r: Result<nat, Error>)
    requires m.Valid()
    ensures r == Ok(Scan(Flatten(m.nodes)).count)
    ensures r.value <= m.height * m.width
  {
    var inLoop := false;
    var count := 0;
    var prevCorner: Option<Pipe> := None;
    for x := 0 to m.height
      invariant ScanState(inLoop, count, prevCorner) == Scan(Flatten(m.nodes[..x]))
    {
      assert Flatten(m.nodes[..x]) + m.nodes[x][..0] == Flatten(m.nodes[..x]);
      for y := 0 to m.width
        invariant ScanState(inLoop, count, prevCorner) == Scan(Flatten(m.nodes[..x]) + m.nodes[x][..y])
      {
        // get_node cannot fail inside the bounds the loops run over.
        var node := m.nodes[x][y];
        ghost var before := ScanState(inLoop, count, prevCorner);
        match node {
          case Vertical => inLoop := !inLoop;
          case Start => inLoop := !inLoop;
          case Horizontal =>
          case CornerNorthEast => prevCorner := Some(node);
          case CornerSouthEast => prevCorner := Some(node);
          case CornerNorthWest =>
            if prevCorner == Some(CornerSouthEast) {
              inLoop := !inLoop;
            }
          case CornerSouthWest =>
            if prevCorner == Some(CornerNorthEast) {
              inLoop := !inLoop;
            }
          case Ground =>
            if inLoop {
              count := count + 1;
            }
        }
        assert ScanState(inLoop, count, prevCorner) == ScanStep(before, node);
        ScanOneMore(Flatten(m.nodes[..x]), m.nodes[x], y);
      }
      FlattenOneMore(m.nodes, x);
    }
    assert m.nodes[..m.height] == m.nodes;
    ScanCountsGround(Flatten(m.nodes));
    FlattenSize(m.nodes, m.width);
    r := Ok(count);
  }

  // ---------------------------------------------------------------------------
  // Tracing the loop (both puzzle parts)
  // ---------------------------------------------------------------------------

  /** What both parts compute before they walk: the map, the start and the
      start's two exits. */
  ghost function Prepare(lines: seq<string>): (r: Result<(PipeMap, Coord, seq<Cardinal>), Error>)
    requires |lines| > 0 && Rectangular(lines)
    ensures r.Ok? ==>
      && r.value.0.Valid() && r.value.0.InBounds(r.value.1)
      && r.value.0.height == |lines| && r.value.0.width == |lines[0]|
      && StartSearch(r.value.0.nodes) == Some(r.value.1)
      && |r.value.2| == 2 && LinksBack(r.value.0, r.value.1, r.value.2[0]) && LinksBack(r.value.0, r.value.1, r.value.2[1])
      && r.value.2[0] != r.value.2[1]
  {
    var m :- ParseMap(lines);
    var s :- match StartSearch(m.nodes) case Some(c) => Ok(c) case None => Err(StartNotFound);
    var dirs :- GetStartDirections(m);
    Ok((m, s, dirs))
  }

  /** The prologue both parts share: parse, find the start, find its exits. */
  method Setup(lines: seq<string>) returns (r: Result<(PipeMap, Coord, seq<Cardinal>), Error>)
    requires |lines| > 0 && Rectangular(lines)
    ensures r == Prepare(lines)
  {
    var m :- ParseMap(lines);
    var s :- FindStart(m);
    var dirs :- GetStartDirections(m);
    return Ok((m, s, dirs));
  }

  /** The first tile of the walk that leaves the start in direction `d`; the
      source's `ok_or` on this shift never fires, since `d` links back. */
  function FirstStep(m: PipeMap, s: Coord, d: Cardinal): (c: Coord)
    requires m.Valid() && m.InBounds(s) && LinksBack(m, s, d)
    ensures m.InBounds(c) && c.0 == s.0 + DRow(d) && c.1 == s.1 + DCol(d)
  {
    ShiftCoord(m, s, d).value
  }

  /** The walk that leaves the start in direction `d`, after `k` steps; it
      fails at once when `d` points off the map. */
  ghost function Track(m: PipeMap, s: Coord, d: Cardinal, k: nat): Result<(Coord, Cardinal), Error>
    requires m.Valid() && m.InBounds(s)
  {
    match ShiftCoord(m, s, d)
    case None => Err(InvalidStartCoordinate)
    case Some(c) => Walk(m, c, Opposite(d), k)
  }

  /** A walk seen as a function of the number of steps taken. The chase of
      part 1 and the circuit of part 2 are stated over trails, which keeps
      their proofs apart from the map. */
  type Trail = nat -> Result<(Coord, Cardinal), Error>

  ghost function TrackOf(m: PipeMap, s: Coord, d: Cardinal): Trail
    requires m.Valid() && m.InBounds(s)
  {
    (k: nat) => Track(m, s, d, k)
  }

  /** A walk that leaves the start by a linking direction starts on the
      neighbour, entered from the start's side. */
  lemma TrackStart(m: PipeMap, s: Coord, d: Cardinal)
    requires m.Valid() && m.InBounds(s) && LinksBack(m, s, d)
    ensures TrackOf(m, s, d)(0) == Ok((FirstStep(m, s, d), Opposite(d)))
  {
  }

  /** One more step of a walk is one more `GetNextNode` from where it stands. */
  lemma TrackNext(m: PipeMap, s: Coord, d: Cardinal, k: nat, at: Coord, from: Cardinal)
    requires m.Valid() && m.InBounds(s)
    requires TrackOf(m, s, d)(k) == Ok((at, from))
    ensures TrackOf(m, s, d)(k + 1) == GetNextNode(m, at, from)
    ensures k > 0 ==> m.InBounds(at)
  {
  }

  /** Takes the step after `k` of the walk in direction `d`, standing at `at`. */
  method Advance(m: PipeMap, s: Coord, d: Cardinal, ghost k: nat, at: Coord, from: Cardinal)
    returns (r: Result<(Coord, Cardinal), Error>)
    requires m.Valid() && m.InBounds(s)
    requires TrackOf(m, s, d)(k) == Ok((at, from))
    ensures r == TrackOf(m, s, d)(k + 1)
    ensures r.Ok? ==> m.InBounds(r.value.0)
  {
    TrackNext(m, s, d, k, at, from);
    r := GetNextNode(m, at, from);
  }

  /** A failed trail fails one step further too. */
  ghost predicate FailureSticks(w: Trail) {
    forall k: nat :: w(k).Err? ==> w(k + 1).Err?
  }

  /** Once a trail fails, it stays failed. */
  ghost predicate StaysFailed(w: Trail) {
    forall i: nat, j: nat :: i <= j && w(i).Err? ==> w(j).Err?
  }

  lemma {:induction false} FailureStays(w: Trail, i: nat, j: nat)
    requires FailureSticks(w) && i <= j && w(i).Err?
    ensures w(j).Err?
    decreases j
  {
    if i < j {
      FailureStays(w, i, j - 1);
    }
  }

  lemma StickyFailureStays(w: Trail)
    requires FailureSticks(w)
    ensures StaysFailed(w)
  {
    forall i: nat, j: nat | i <= j && w(i).Err? ensures w(j).Err? {
      FailureStays(w, i, j);
    }
  }

  lemma TrackFailureSticks(m: PipeMap, s: Coord, d: Cardinal, k: nat)
    requires m.Valid() && m.InBounds(s) && Track(m, s, d, k).Err?
    ensures Track(m, s, d, k + 1).Err?
  {
    if ShiftCoord(m, s, d).Some? {
      WalkFailureSticks(m, ShiftCoord(m, s, d).value, Opposite(d), k);
    }
  }

  lemma TrackStaysFailed(m: PipeMap, s: Coord, d: Cardinal)
    requires m.Valid() && m.InBounds(s)
    ensures StaysFailed(TrackOf(m, s, d))
  {
    forall k: nat | TrackOf(m, s, d)(k).Err? ensures TrackOf(m, s, d)(k + 1).Err? {
      TrackFailureSticks(m, s, d, k);
    }
    StickyFailureStays(TrackOf(m, s, d));
  }

  // ---------------------------------------------------------------------------
  // Part 1: chasing both ways round the loop
  // ---------------------------------------------------------------------------

  /** After `k` steps the two trails stand on the same tile. */
  ghost predicate Meet(w1: Trail, w2: Trail, k: nat) {
    w1(k).Ok? && w2(k).Ok? && w1(k).value.0 == w2(k).value.0
  }

  /** The two trails do not meet after any number of steps below `k`. */
  ghost predicate ApartBefore(w1: Trail, w2: Trail, k: nat) {
    k == 0 || (ApartBefore(w1, w2, k - 1) && !Meet(w1, w2, k - 1))
  }

  lemma {:induction false} ApartBeforeMeans(w1: Trail, w2: Trail, k: nat)
    ensures ApartBefore(w1, w2, k) <==> forall j :: 0 <= j < k ==> !Meet(w1, w2, j)
  {
    if k > 0 {
      ApartBeforeMeans(w1, w2, k - 1);
    }
  }

  /** Within `n` steps one trail fails or the two meet. */
  ghost predicate Settles(w1: Trail, w2: Trail, n: nat) {
    w1(n).Err? || w2(n).Err? || Meet(w1, w2, n)
  }

  /** What the loop of part 1 computes from step `k` on: when the two trails
      stand on the same tile the answer is one more than the steps taken;
      otherwise both step, the first trail first, and the first failure is
      the result. */
  ghost function Chase(w1: Trail, w2: Trail, k: nat, n: nat): Result<nat, Error>
    requires k <= n && w1(k).Ok? && w2(k).Ok? && Settles(w1, w2, n)
    decreases n - k
  {
    if Meet(w1, w2, k) then Ok(k + 1)
    else if w1(k + 1).Err? then Err(w1(k + 1).error)
    else if w2(k + 1).Err? then Err(w2(k + 1).error)
    else Chase(w1, w2, k + 1, n)
  }

  /** Trails that stand apart at step `k` have not settled yet. */
  lemma ChaseGoesOn(w1: Trail, w2: Trail, k: nat, n: nat)
    requires k <= n && w1(k).Ok? && w2(k).Ok? && Settles(w1, w2, n) && !Meet(w1, w2, k)
    ensures k < n
  {
  }

  /** A successful chase ends at the first step at which the trails meet. */
  lemma {:induction false} ChaseMeetsFirst(w1: Trail, w2: Trail, k: nat, n: nat)
    requires k <= n && w1(k).Ok? && w2(k).Ok? && Settles(w1, w2, n)
    requires ApartBefore(w1, w2, k)
    ensures Chase(w1, w2, k, n).Ok? ==>
      && k < Chase(w1, w2, k, n).value <= n + 1
      && Meet(w1, w2, Chase(w1, w2, k, n).value - 1)
      && ApartBefore(w1, w2, Chase(w1, w2, k, n).value - 1)
    decreases n - k
  {
    if !Meet(w1, w2, k) && w1(k + 1).Ok? && w2(k + 1).Ok? {
      ChaseMeetsFirst(w1, w2, k + 1, n);
    }
  }

  /** A failed chase means one of the two trails has failed by step `n`. */
  lemma {:induction false} ChaseFailsWithATrail(w1: Trail, w2: Trail, k: nat, n: nat)
    requires k <= n && w1(k).Ok? && w2(k).Ok? && Settles(w1, w2, n)
    requires StaysFailed(w1) && StaysFailed(w2)
    ensures Chase(w1, w2, k, n).Err? ==> w1(n).Err? || w2(n).Err?
    decreases n - k
  {
    if !Meet(w1, w2, k) && w1(k + 1).Ok? && w2(k + 1).Ok? {
      ChaseFailsWithATrail(w1, w2, k + 1, n);
    }
  }

  /** The loop of part 1: step both walks until they stand on the same tile;
      the count returned is one more than the number of steps taken. */
  method ChaseBothWays(m: PipeMap, s: Coord, d1: Cardinal, d2: Cardinal, ghost n: nat) returns (r: Result<nat, Error>)
    requires m.Valid() && m.InBounds(s) && LinksBack(m, s, d1) && LinksBack(m, s, d2)
    requires Settles(TrackOf(m, s, d1), TrackOf(m, s, d2), n)
    ensures TrackOf(m, s, d1)(0).Ok? && TrackOf(m, s, d2)(0).Ok?
    ensures r == Chase(TrackOf(m, s, d1), TrackOf(m, s, d2), 0, n)
  {
    ghost var w1, w2 := TrackOf(m, s, d1), TrackOf(m, s, d2);
    TrackStart(m, s, d1);
    TrackStart(m, s, d2);
    var steps := 1;
    var a, aFrom := FirstStep(m, s, d1), Opposite(d1);
    var b, bFrom := FirstStep(m, s, d2), Opposite(d2);
    ghost var k: nat := 0;
    while a != b
      invariant k <= n && steps == k + 1
      invariant w1(k) == Ok((a, aFrom)) && w2(k) == Ok((b, bFrom))
      invariant Chase(w1, w2, k, n) == Chase(w1, w2, 0, n)
      decreases n - k
    {
      assert !Meet(w1, w2, k);
      ChaseGoesOn(w1, w2, k, n);
      var nextA :- Advance(m, s, d1, k, a, aFrom);
      var nextB :- Advance(m, s, d2, k, b, bFrom);
      a, aFrom := nextA.0, nextA.1;
      b, bFrom := nextB.0, nextB.1;
      steps := steps + 1;
      k := k + 1;
    }
    return Ok(steps);
  }

  /** The two walks of part 1 settle within `n` steps. */
  ghost predicate Part1Ends(lines: seq<string>, n: nat)
    requires |lines| > 0 && Rectangular(lines)
  {
    Prepare(lines).Ok? ==>
      var p := Prepare(lines).value;
      Settles(TrackOf(p.0, p.1, p.2[0]), TrackOf(p.0, p.1, p.2[1]), n)
  }

  /** The answer to part 1: the failure of the prologue, or the chase. */
  ghost function Part1Answer(lines: seq<string>, n: nat): Result<nat, Error>
    requires |lines| > 0 && Rectangular(lines) && Part1Ends(lines, n)
  {
    match Prepare(lines)
    case Err(e) => Err(e)
    case Ok(p) =>
      TrackStart(p.0, p.1, p.2[0]);
      TrackStart(p.0, p.1, p.2[1]);
      Chase(TrackOf(p.0, p.1, p.2[0]), TrackOf(p.0, p.1, p.2[1]), 0, n)
  }

  /** Part 1: walk both ways round the loop from the start until the two walks
      stand on the same tile. */
  method Part1(lines: seq<string>, ghost n: nat) returns (r: Result<nat, Error>)
    requires |lines| > 0 && Rectangular(lines)
    requires Part1Ends(lines, n)
    ensures r == Part1Answer(lines, n)
  {
    var prep :- Setup(lines);
    r := ChaseBothWays(prep.0, prep.1, prep.2[0], prep.2[1], n);
  }

  /** The answer of part 1 is the first step count at which the walks meet,
      plus one; when it is an error, the prologue or one of the walks failed. */
  lemma Part1Meaning(lines: seq<string>, n: nat)
    requires |lines| > 0 && Rectangular(lines) && Part1Ends(lines, n)
    ensures Prepare(lines).Err? ==> Part1Answer(lines, n) == Err(Prepare(lines).error)
    ensures Prepare(lines).Ok? ==>
      var p := Prepare(lines).value;
      var w1, w2 := TrackOf(p.0, p.1, p.2[0]), TrackOf(p.0, p.1, p.2[1]);
      && (Part1Answer(lines, n).Ok? ==>
            && 1 <= Part1Answer(lines, n).value <= n + 1
            && Meet(w1, w2, Part1Answer(lines, n).value - 1)
            && forall j :: 0 <= j < Part1Answer(lines, n).value - 1 ==> !Meet(w1, w2, j))
      && (Part1Answer(lines, n).Err? ==> w1(n).Err? || w2(n).Err?)
  {
    if Prepare(lines).Ok? {
      var p := Prepare(lines).value;
      var w1, w2 := TrackOf(p.0, p.1, p.2[0]), TrackOf(p.0, p.1, p.2[1]);
      TrackStart(p.0, p.1, p.2[0]);
      TrackStart(p.0, p.1, p.2[1]);
      ChaseMeetsFirst(w1, w2, 0, n);
      TrackStaysFailed(p.0, p.1, p.2[0]);
      TrackStaysFailed(p.0, p.1, p.2[1]);
      ChaseFailsWithATrail(w1, w2, 0, n);
      if Part1Answer(lines, n).Ok? {
        ApartBeforeMeans(w1, w2, Part1Answer(lines, n).value - 1);
      }
    }
  }

  // ---------------------------------------------------------------------------
  // Part 2: tracing the loop onto a clean map
  // ---------------------------------------------------------------------------

  /** By step `n` the trail has failed or is back on `s`. */
  ghost predicate Returns(w: Trail, s: Coord, n: nat) {
    w(n).Err? || w(n).value.0 == s
  }

  /** What the loop of part 2 computes from step `k` on: the number of steps
      after which the trail stands on `s` again, or its first failure. */
  ghost function Circuit(w: Trail, s: Coord, k: nat, n: nat): Result<nat, Error>
    requires k <= n && w(k).Ok? && Returns(w, s, n)
    decreases n - k
  {
    if w(k).value.0 == s then Ok(k)
    else if w(k + 1).Err? then Err(w(k + 1).error)
    else Circuit(w, s, k + 1, n)
  }

  /** A trail away from `s` at step `k` has not returned yet. */
  lemma CircuitGoesOn(w: Trail, s: Coord, k: nat, n: nat)
    requires k <= n && w(k).Ok? && Returns(w, s, n) && w(k).value.0 != s
    ensures k < n
  {
  }

  /** A closed circuit ends at the first return to `s`; a failed one means
      the trail has failed by step `n`. */
  lemma {:induction false} CircuitCloses(w: Trail, s: Coord, k: nat, n: nat)
    requires k <= n && w(k).Ok? && Returns(w, s, n) && StaysFailed(w)
    ensures Circuit(w, s, k, n).Ok? ==>
      && k <= Circuit(w, s, k, n).value <= n
      && w(Circuit(w, s, k, n).value).Ok? && w(Circuit(w, s, k, n).value).value.0 == s
      && forall j :: k <= j < Circuit(w, s, k, n).value ==> w(j).Ok? && w(j).value.0 != s
    ensures Circuit(w, s, k, n).Err? ==> w(n).Err?
    decreases n - k
  {
    if w(k).value.0 != s && w(k + 1).Ok? {
      CircuitCloses(w, s, k + 1, n);
    }
  }

  /** The tiles a trail stands on in its first `k` steps. */
  ghost function Cells(w: Trail, k: nat): set<Coord> {
    if k == 0 then {}
    else Cells(w, k - 1) + (if w(k - 1).Ok? then {w(k - 1).value.0} else {})
  }

  lemma CellsNext(w: Trail, k: nat)
    requires w(k).Ok?
    ensures Cells(w, k + 1) == Cells(w, k) + {w(k).value.0}
  {
  }

  lemma {:induction false} CellsAreVisited(w: Trail, k: nat, c: Coord)
    ensures c in Cells(w, k) <==> exists j :: 0 <= j < k && w(j).Ok? && w(j).value.0 == c
  {
    if k > 0 {
      CellsAreVisited(w, k - 1, c);
    }
  }

  /** The map part 2 counts in: the start, the tiles in `cells` with their
      pipes, and ground everywhere else. */
  function CleanMap(m: PipeMap, s: Coord, cells: set<Coord>): (r: seq<seq<Pipe>>)
    requires m.Valid()
    ensures |r| == m.height && forall i :: 0 <= i < |r| ==> |r[i]| == m.width
  {
    seq(m.height, (i: int) requires 0 <= i < m.height =>
      seq(m.width, (j: int) requires 0 <= j < m.width =>
        if (i, j) == s then Start else if (i, j) in cells then m.nodes[i][j] else Ground))
  }

  /** A blank map of the same size with only the start on it. */
  lemma CleanMapEmpty(m: PipeMap, s: Coord, blank: seq<seq<Pipe>>)
    requires m.Valid() && m.InBounds(s)
    requires |blank| == m.height && forall i :: 0 <= i < m.height ==> blank[i] == seq(m.width, _ => Ground)
    ensures CleanMap(m, s, {}) == blank[s.0 := blank[s.0][s.1 := Start]]
  {
    var c, b := CleanMap(m, s, {}), blank[s.0 := blank[s.0][s.1 := Start]];
    assert forall i :: 0 <= i < m.height ==> c[i] == b[i];
  }

  /** Copying one more tile of the loop onto the clean map. */
  lemma CleanMapGrows(m: PipeMap, s: Coord, cells: set<Coord>, c: Coord)
    requires m.Valid() && m.InBounds(c) && c != s
    ensures CleanMap(m, s, cells + {c}) ==
      CleanMap(m, s, cells)[c.0 := CleanMap(m, s, cells)[c.0][c.1 := m.nodes[c.0][c.1]]]
  {
    var old_, new_ := CleanMap(m, s, cells), CleanMap(m, s, cells + {c});
    var upd := old_[c.0 := old_[c.0][c.1 := m.nodes[c.0][c.1]]];
    assert forall i :: 0 <= i < m.height ==> new_[i] == upd[i];
  }

  /** The clean map of the loop, or the failure of the walk round it. */
  ghost function Traced(m: PipeMap, s: Coord, d: Cardinal, n: nat): Result<seq<seq<Pipe>>, Error>
    requires m.Valid() && m.InBounds(s) && LinksBack(m, s, d) && Returns(TrackOf(m, s, d), s, n)
  {
    TrackStart(m, s, d);
    match Circuit(TrackOf(m, s, d), s, 0, n)
    case Err(e) => Err(e)
    case Ok(len) => Ok(CleanMap(m, s, Cells(TrackOf(m, s, d), len)))
  }

  /** Copies the tile at `c` onto the clean map. The source reads the tile
      with get_node, which cannot fail on a tile of the walk. */
  method CopyTile(m: PipeMap, s: Coord, ghost cells: set<Coord>, clean: seq<seq<Pipe>>, c: Coord)
    returns (r: seq<seq<Pipe>>)
    requires m.Valid() && m.InBounds(c) && c != s
    requires clean == CleanMap(m, s, cells)
    ensures r == CleanMap(m, s, cells + {c})
  {
    CleanMapGrows(m, s, cells, c);
    r := clean[c.0 := clean[c.0][c.1 := m.nodes[c.0][c.1]]];
  }

  /** The walk of part 2 is back at the start, or has failed, within `n` steps. */
  ghost predicate Part2Ends(lines: seq<string>, n: nat)
    requires |lines| > 0 && Rectangular(lines)
  {
    Prepare(lines).Ok? ==>
      var p := Prepare(lines).value;
      Returns(TrackOf(p.0, p.1, p.2[0]), p.1, n)
  }

  /** The answer to part 2: the failure of the prologue or of the walk, or the
      count of enclosed tiles on the clean map of the loop. */
  ghost function Part2Answer(lines: seq<string>, n: nat): Result<nat, Error>
    requires |lines| > 0 && Rectangular(lines) && Part2Ends(lines, n)
  {
    match Prepare(lines)
    case Err(e) => Err(e)
    case Ok(p) =>
      match Traced(p.0, p.1, p.2[0], n)
      case Err(e) => Err(e)
      case Ok(clean) => Ok(Scan(Flatten(clean)).count)
  }

  /** The loop of part 2: follow the walk from the start in direction `d`
      until it is back at the start, copying each tile onto a blank map that
      holds only the start. */
  method TraceLoop(m: PipeMap, s: Coord, d: Cardinal, ghost n: nat) returns (r: Result<seq<seq<Pipe>>, Error>)
    requires m.Valid() && m.InBounds(s) && LinksBack(m, s, d)
    requires Returns(TrackOf(m, s, d), s, n)
    ensures r == Traced(m, s, d, n)
  {
    ghost var w := TrackOf(m, s, d);
    TrackStart(m, s, d);
    var blank := seq(m.height, _ => seq(m.width, _ => Ground));
    var clean := blank[s.0 := blank[s.0][s.1 := Start]];
    CleanMapEmpty(m, s, blank);
    var cur, from := FirstStep(m, s, d), Opposite(d);
    ghost var k: nat := 0;
    while cur != s
      invariant k <= n && m.InBounds(cur)
      invariant w(k) == Ok((cur, from))
      invariant Circuit(w, s, k, n) == Circuit(w, s, 0, n)
      invariant clean == CleanMap(m, s, Cells(w, k))
      decreases n - k
    {
      CircuitGoesOn(w, s, k, n);
      CellsNext(w, k);
      clean := CopyTile(m, s, Cells(w, k), clean, cur);
      var next :- Advance(m, s, d, k, cur, from);
      cur, from := next.0, next.1;
      k := k + 1;
    }
    return Ok(clean);
  }

  /** Part 2: trace the loop from the start in its first direction onto a
      clean map, and count the tiles the loop encloses there. */
  method Part2(lines: seq<string>, ghost n: nat) returns (r: Result<nat, Error>)
    requires |lines| > 0 && Rectangular(lines)
    requires Part2Ends(lines, n)
    ensures r == Part2Answer(lines, n)
    ensures r.Ok? ==> r.value <= |lines| * |lines[0]|
  {
    var prep :- Setup(lines);
    var m, s, d := prep.0, prep.1, prep.2[0];
    var clean :- TraceLoop(m, s, d, n);
    r := CountInternalTiles(PipeMap(clean, m.height, m.width));
    assert m.height * m.width == |lines| * |lines[0]|;
  }
}
