/** Shared vocabulary of both bot generations: the player/status enumeration, moves,
    nine-cell boards, the eight winning lines and the coordinate maps between a move
    on the 9x9 grid and a (sub-board, cell) pair. */
module Common {

  /** The one enumeration used for cells, macro-board statuses and winnability
      classifications. `None` is an empty cell or "nobody"; `Active` and `Both` only
      ever appear on the macro layer. */
  datatype Player = None | X | O | Active | Both

  /** A cell of the 9x9 composite grid, x = column, y = row. */
  datatype Move = Move(x: int, y: int)

  datatype Option<T> = Nothing | Some(value: T)

  /** An index into a nine-cell board. */
  type Cell = i: int | 0 <= i < 9

  /** A nine-cell tic-tac-toe board in row-major order. */
  type Board = b: seq<Player> | |b| == 9 witness [None, None, None, None, None, None, None, None, None]

  /** Nine boards: the sub-boards of the composite grid (or, in the older generation,
      the nine rows of the 9x9 grid). */
  type Grid = g: seq<Board> | |g| == 9 witness seq(9, _ => EmptyBoard())

  function EmptyBoard(): (b: Board)
    ensures forall i | 0 <= i < 9 :: b[i] == None
  {
    [None, None, None, None, None, None, None, None, None]
  }

  /** Three cells that form a row, a column or a diagonal. */
  datatype Line = Line(a: Cell, b: Cell, c: Cell)

  /** The eight winning lines in table order: rows, columns, then the two diagonals. */
  const Wins: seq<Line> := [
    Line(0, 1, 2), Line(3, 4, 5), Line(6, 7, 8),
    Line(0, 3, 6), Line(1, 4, 7), Line(2, 5, 8),
    Line(0, 4, 8), Line(2, 4, 6)
  ]

  /** The table's entries one by one. */
  lemma WinsEntries()
    ensures Wins[0] == Line(0, 1, 2) && Wins[1] == Line(3, 4, 5) && Wins[2] == Line(6, 7, 8)
    ensures Wins[3] == Line(0, 3, 6) && Wins[4] == Line(1, 4, 7) && Wins[5] == Line(2, 5, 8)
    ensures Wins[6] == Line(0, 4, 8) && Wins[7] == Line(2, 4, 6)
  {
  }

  predicate OnLine(l: Line, i: int) {
    i == l.a || i == l.b || i == l.c
  }

  /** All three cells of line `l` hold the same value, and that value is not None. */
  predicate Complete(b: Board, l: Line) {
    b[l.a] == b[l.b] && b[l.b] == b[l.c] && b[l.c] != None
  }

  /** All three cells of line `l` hold `p`. */
  predicate Owned(b: Board, l: Line, p: Player) {
    b[l.a] == p && b[l.b] == p && b[l.c] == p
  }

  /** No cell of line `l` holds `p`. */
  predicate FreeOf(b: Board, l: Line, p: Player) {
    b[l.a] != p && b[l.b] != p && b[l.c] != p
  }

  /** How many cells of line `l` hold `p`. */
  function LineCount(b: Board, l: Line, p: Player): (n: nat)
    ensures n <= 3
  {
    (if b[l.a] == p then 1 else 0) + (if b[l.b] == p then 1 else 0) + (if b[l.c] == p then 1 else 0)
  }

  /** The number of winning lines through cell `i`: 3 for a corner, 2 for an edge, 4 for the centre. */
  function LinesThrough(i: Cell): (n: nat)
    ensures 2 <= n <= 4
  {
    if i == 4 then 4 else if i % 2 == 0 then 3 else 2
  }

  lemma {:induction false} LinesThroughCounts(i: Cell)
    ensures |set w | 0 <= w < 8 && OnLine(Wins[w], i)| == LinesThrough(i)
  {
    var s := set w | 0 <= w < 8 && OnLine(Wins[w], i);
    if i == 0 { assert s == {0, 3, 6}; }
    else if i == 1 { assert s == {0, 4}; }
    else if i == 2 { assert s == {0, 5, 7}; }
    else if i == 3 { assert s == {1, 3}; }
    else if i == 4 { assert s == {1, 4, 6, 7}; }
    else if i == 5 { assert s == {1, 5}; }
    else if i == 6 { assert s == {2, 3, 7}; }
    else if i == 7 { assert s == {2, 4}; }
    else { assert s == {2, 5, 6}; }
  }

  /** Which sub-board a move lands in: x/3 + 3*(y/3). */
  function MacroIndex(m: Move): (r: int)
    ensures OnGrid(m) ==> 0 <= r < 9
  {
    m.x / 3 + 3 * (m.y / 3)
  }

  /** Which cell of its sub-board a move lands on (and so which sub-board is next): x%3 + 3*(y%3). */
  function CellIndex(m: Move): (r: int)
    ensures OnGrid(m) ==> 0 <= r < 9
  {
    m.x % 3 + 3 * (m.y % 3)
  }

  predicate OnGrid(m: Move) {
    0 <= m.x < 9 && 0 <= m.y < 9
  }

  /** The move on the composite grid that plays cell `md` of sub-board `mb`. */
  function MoveOf(mb: Cell, md: Cell): (m: Move)
    ensures OnGrid(m) && MacroIndex(m) == mb && CellIndex(m) == md
  {
    DigitsOfBase3(md % 3, mb % 3);
    DigitsOfBase3(md / 3, mb / 3);
    Move((mb % 3) * 3 + md % 3, mb / 3 * 3 + md / 3)
  }

  /** The coordinate maps are a bijection between the 81 grid cells and (sub-board, cell) pairs. */
  lemma {:induction false} CoordinatesRoundTrip(m: Move)
    requires OnGrid(m)
    ensures MoveOf(MacroIndex(m), CellIndex(m)) == m
  {
    DigitsOfBase3(m.x / 3, m.y / 3);
    DigitsOfBase3(m.x % 3, m.y % 3);
  }

  lemma DigitsOfBase3(lo: int, hi: int)
    requires 0 <= lo < 3 && 0 <= hi < 3
    ensures (lo + 3 * hi) % 3 == lo && (lo + 3 * hi) / 3 == hi
  {
  }

  /** One more element of a prefix. */
  lemma PrefixStep<T>(s: seq<T>, i: int)
    requires 0 <= i < |s|
    ensures s[..i + 1] == s[..i] + [s[i]]
  {
  }
}
