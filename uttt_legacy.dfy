/** Super-board rules of the older generation (uttt.cpp, state from uttt.h). The grid is
    stored as nine rows of nine cells, `board[y][x]`, and the 3x3 macro board is stored
    flat, entry (r, c) at index 3*r + c. Whose turn it is follows from the marks on the
    board; after a move every macro entry is recomputed from its sub-board. */
module LegacyUTTT {
  import opened Common
  import TTT
  import LegacyTTT

  datatype State = State(board: Grid, macroboard: Board)

  /** uttt.h's default state: an empty grid and every macro entry Active. */
  function DefaultState(): (s: State)
    ensures forall r, c | 0 <= r < 9 && 0 <= c < 9 :: s.board[r][c] == None
    ensures forall i | 0 <= i < 9 :: s.macroboard[i] == Active
  {
    State(seq(9, _ => EmptyBoard()), [Active, Active, Active, Active, Active, Active, Active, Active, Active])
  }

  /** The rows laid end to end. */
  function Concat(rows: seq<Board>): (r: seq<Player>)
    ensures |r| == 9 * |rows|
  {
    if rows == [] then [] else Concat(rows[..|rows| - 1]) + rows[|rows| - 1]
  }

  /** A value occurs in the concatenation exactly when it occurs in one of the rows. */
  lemma {:induction false} InConcat(rows: seq<Board>, p: Player)
    ensures p in Concat(rows) <==> exists r, c | 0 <= r < |rows| && 0 <= c < 9 :: rows[r][c] == p
  {
    if rows != [] {
      var last := |rows| - 1;
      InConcat(rows[..last], p);
      assert Concat(rows) == Concat(rows[..last]) + rows[last];
      if p in Concat(rows[..last]) {
        var r, c :| 0 <= r < last && 0 <= c < 9 && rows[..last][r][c] == p;
        assert rows[r][c] == p;
      }
      if p in rows[last] {
        var c :| 0 <= c < 9 && rows[last][c] == p;
      }
      if exists r, c | 0 <= r < |rows| && 0 <= c < 9 :: rows[r][c] == p {
        var r, c :| 0 <= r < |rows| && 0 <= c < 9 && rows[r][c] == p;
        if r < last {
          assert rows[..last][r][c] == p;
        } else {
          assert p in rows[last];
        }
      }
    }
  }

  /** How many cells of the whole grid hold `p`. */
  function GridMarks(board: seq<Board>, p: Player): nat {
    LegacyTTT.Marks(Concat(board), p)
  }

  /** The player to move: O when the grid holds more X marks than O marks, X otherwise. */
  function CurrentPlayer(s: State): (r: Player)
    ensures r == O <==> GridMarks(s.board, X) > GridMarks(s.board, O)
    ensures r == X || r == O
  {
    if GridMarks(s.board, X) > GridMarks(s.board, O) then O else X
  }

  method GetCurrentPlayer(state: State) returns (p: Player)
    ensures p == CurrentPlayer(state)
  {
    var countX := 0;
    var countO := 0;
    var r := 0;
    while r < 9
      invariant 0 <= r <= 9
      invariant countX == GridMarks(state.board[..r], X) && countO == GridMarks(state.board[..r], O)
    {
      var c := 0;
      while c < 9
        invariant 0 <= c <= 9
        invariant countX == GridMarks(state.board[..r], X) + LegacyTTT.Marks(state.board[r][..c], X)
        invariant countO == GridMarks(state.board[..r], O) + LegacyTTT.Marks(state.board[r][..c], O)
      {
        assert state.board[r][..c + 1] == state.board[r][..c] + [state.board[r][c]];
        if state.board[r][c] == X {
          countX := countX + 1;
        } else if state.board[r][c] == O {
          countO := countO + 1;
        }
        c := c + 1;
      }
      assert state.board[r][..9] == state.board[r];
      assert state.board[..r + 1][..r] == state.board[..r];
      r := r + 1;
    }
    assert state.board[..9] == state.board;
    p := if countX > countO then O else X;
  }

  /** Sub-board (row, col) read out of the grid as a plain nine-cell board. */
  function SubBoard(board: Grid, row: int, col: int): Board
    requires 0 <= row < 3 && 0 <= col < 3
  {
    var top, mid, bot := board[row * 3], board[row * 3 + 1], board[row * 3 + 2];
    var c := col * 3;
    [top[c], top[c + 1], top[c + 2], mid[c], mid[c + 1], mid[c + 2], bot[c], bot[c + 1], bot[c + 2]]
  }

  /** Cell i of sub-board (row, col) is grid cell (row * 3 + i / 3, col * 3 + i % 3). */
  lemma SubBoardCells(board: Grid, row: int, col: int)
    requires 0 <= row < 3 && 0 <= col < 3
    ensures forall i | 0 <= i < 9 :: SubBoard(board, row, col)[i] == board[row * 3 + i / 3][col * 3 + i % 3]
  {
    var b := SubBoard(board, row, col);
    forall i | 0 <= i < 9
      ensures b[i] == board[row * 3 + i / 3][col * 3 + i % 3]
    {
      SplitBase3(i);
    }
  }

  /** What a sub-board contributes to the macro board: its winner, failing that Active
      while it has an empty cell, and None once it is full. */
  function Status(b: Board): Player {
    var w := TTT.GetWinner(b);
    if w != None then w
    else if exists i | 0 <= i < 9 :: b[i] == None then Active
    else None
  }

  /** A won sub-board reports its winner; an undecided one is Active exactly while it
      has an empty cell and None exactly once it is full. */
  lemma StatusCases(b: Board)
    ensures TTT.GetWinner(b) != None ==> Status(b) == TTT.GetWinner(b)
    ensures TTT.GetWinner(b) == None ==> (Status(b) == Active <==> exists i | 0 <= i < 9 :: b[i] == None)
    ensures TTT.GetWinner(b) == None ==> (Status(b) == None <==> forall i | 0 <= i < 9 :: b[i] != None)
  {
  }

  /** The winner is the value of the first complete line. */
  lemma FirstCompleteLineWins(b: Board, v: int)
    requires 0 <= v < 8 && Complete(b, Wins[v])
    requires forall u | 0 <= u < v :: !Complete(b, Wins[u])
    ensures TTT.GetWinner(b) == b[Wins[v].a]
  {
    var w :| 0 <= w < 8 && Complete(b, Wins[w]) && b[Wins[w].a] == TTT.GetWinner(b) && forall u | 0 <= u < w :: !Complete(b, Wins[u]);
    assert w == v;
  }

  /** Row `r` of sub-board (row, col) is winning line `r`, read from grid row row*3 + r. */
  lemma SubBoardRow(board: Grid, row: int, col: int, r: int, b: Board)
    requires 0 <= row < 3 && 0 <= col < 3 && 0 <= r < 3 && b == SubBoard(board, row, col)
    ensures Complete(b, Wins[r]) == (board[row * 3 + r][col * 3] == board[row * 3 + r][col * 3 + 1]
      && board[row * 3 + r][col * 3 + 1] == board[row * 3 + r][col * 3 + 2]
      && board[row * 3 + r][col * 3 + 2] != None)
    ensures b[Wins[r].a] == board[row * 3 + r][col * 3]
  {
    assert Wins[r] == Line(3 * r, 3 * r + 1, 3 * r + 2);
  }

  /** Column `c` of sub-board (row, col) is winning line 3 + c, read from grid column col*3 + c. */
  lemma SubBoardColumn(board: Grid, row: int, col: int, c: int, b: Board)
    requires 0 <= row < 3 && 0 <= col < 3 && 0 <= c < 3 && b == SubBoard(board, row, col)
    ensures Complete(b, Wins[3 + c]) == (board[row * 3][col * 3 + c] == board[row * 3 + 1][col * 3 + c]
      && board[row * 3 + 1][col * 3 + c] == board[row * 3 + 2][col * 3 + c]
      && board[row * 3][col * 3 + c] != None)
    ensures b[Wins[3 + c].a] == board[row * 3][col * 3 + c]
  {
    assert Wins[3 + c] == Line(c, 3 + c, 6 + c);
  }

  /** The diagonals of sub-board (row, col) are winning lines 6 and 7. */
  lemma SubBoardDiagonals(board: Grid, row: int, col: int, b: Board)
    requires 0 <= row < 3 && 0 <= col < 3 && b == SubBoard(board, row, col)
    ensures Complete(b, Wins[6]) == (board[row * 3][col * 3] == board[row * 3 + 1][col * 3 + 1]
      && board[row * 3 + 1][col * 3 + 1] == board[row * 3 + 2][col * 3 + 2]
      && board[row * 3][col * 3] != None)
    ensures b[Wins[6].a] == board[row * 3][col * 3]
    ensures Complete(b, Wins[7]) == (board[row * 3][col * 3 + 2] == board[row * 3 + 1][col * 3 + 1]
      && board[row * 3 + 1][col * 3 + 1] == board[row * 3 + 2][col * 3]
      && board[row * 3][col * 3 + 2] != None)
    ensures b[Wins[7].a] == board[row * 3][col * 3 + 2]
  {
    assert Wins[6] == Line(0, 4, 8) && Wins[7] == Line(2, 4, 6);
  }

  /** uttt.cpp's sub-board scan: the rows, the columns and the two diagonals in TTT.cpp's
      order, then a search for an empty cell. */
  method GetSubWinner(state: State, row: int, col: int) returns (w: Player)
    requires 0 <= row < 3 && 0 <= col < 3
    ensures w == Status(SubBoard(state.board, row, col))
  {
    ghost var b := SubBoard(state.board, row, col);
    var board := state.board;
    for r := 0 to 3
      invariant forall v | 0 <= v < r :: !Complete(b, Wins[v])
    {
      SubBoardRow(board, row, col, r, b);
      if board[row * 3 + r][col * 3] == board[row * 3 + r][col * 3 + 1]
        && board[row * 3 + r][col * 3 + 1] == board[row * 3 + r][col * 3 + 2]
        && board[row * 3 + r][col * 3 + 2] != None
      {
        FirstCompleteLineWins(b, r);
        return board[row * 3 + r][col * 3];
      }
    }
    for c := 0 to 3
      invariant forall v | 0 <= v < 3 + c :: !Complete(b, Wins[v])
    {
      SubBoardColumn(board, row, col, c, b);
      if board[row * 3][col * 3 + c] == board[row * 3 + 1][col * 3 + c]
        && board[row * 3 + 1][col * 3 + c] == board[row * 3 + 2][col * 3 + c]
        && board[row * 3][col * 3 + c] != None
      {
        FirstCompleteLineWins(b, 3 + c);
        return board[row * 3][col * 3 + c];
      }
    }
    SubBoardDiagonals(board, row, col, b);
    if board[row * 3][col * 3] == board[row * 3 + 1][col * 3 + 1]
      && board[row * 3 + 1][col * 3 + 1] == board[row * 3 + 2][col * 3 + 2]
      && board[row * 3][col * 3] != None
    {
      FirstCompleteLineWins(b, 6);
      return board[row * 3][col * 3];
    }
    if board[row * 3][col * 3 + 2] == board[row * 3 + 1][col * 3 + 1]
      && board[row * 3 + 1][col * 3 + 1] == board[row * 3 + 2][col * 3]
      && board[row * 3][col * 3 + 2] != None
    {
      FirstCompleteLineWins(b, 7);
      return board[row * 3][col * 3 + 2];
    }
    assert forall u | 0 <= u < 8 :: !Complete(b, Wins[u]);
    var open := HasEmptyCell(state, row, col);
    w := if open then Active else None;
  }

  /** The closing search of uttt.cpp's sub-board scan: some cell of sub-board (row, col) is empty. */
  method HasEmptyCell(state: State, row: int, col: int) returns (found: bool)
    requires 0 <= row < 3 && 0 <= col < 3
    ensures found <==> exists i | 0 <= i < 9 :: SubBoard(state.board, row, col)[i] == None
  {
    ghost var b := SubBoard(state.board, row, col);
    for r := 0 to 3
      invariant forall i | 0 <= i < 3 * r :: b[i] != None
    {
      for c := 0 to 3
        invariant forall i | 0 <= i < 3 * r + c :: b[i] != None
      {
        if state.board[row * 3 + r][col * 3 + c] == None {
          assert b[3 * r + c] == None;
          return true;
        }
      }
    }
    return false;
  }

  /** All three entries of macro line `l` agree and are neither None nor Active. */
  predicate Decided(macro: Board, l: Line) {
    Complete(macro, l) && macro[l.a] != Active
  }

  /** The first of the lines from `w` on whose entries are decided, scanned in table
      order, reported by its value; None when there is none. */
  function FirstDecided(macro: Board, w: nat): (r: Player)
    requires w <= 8
    ensures r == None <==> forall v | w <= v < 8 :: !Decided(macro, Wins[v])
    ensures r != None ==> r != Active && exists v | w <= v < 8 ::
      Decided(macro, Wins[v]) && macro[Wins[v].a] == r && forall u | w <= u < v :: !Decided(macro, Wins[u])
    decreases 8 - w
  {
    if w == 8 then None
    else if Decided(macro, Wins[w]) then macro[Wins[w].c]
    else FirstDecided(macro, w + 1)
  }

  /** uttt.cpp's macro winner: the rows, the columns and the two diagonals in TTT.cpp's
      order, each taken when its three entries agree and are neither None nor Active. */
  function MacroWinner(macro: Board): Player {
    FirstDecided(macro, 0)
  }

  /** uttt.cpp's line test on a flat nine-cell board, which is TTT.cpp's winner. */
  function ChildWinner(b: Board): (r: Player)
    ensures r == TTT.GetWinner(b)
  {
    LineTests(b);
    if b[0] == b[1] && b[1] == b[2] && b[0] != None then b[0]
    else if b[3] == b[4] && b[4] == b[5] && b[3] != None then b[3]
    else if b[6] == b[7] && b[7] == b[8] && b[6] != None then b[6]
    else if b[0] == b[3] && b[3] == b[6] && b[0] != None then b[0]
    else if b[1] == b[4] && b[4] == b[7] && b[1] != None then b[1]
    else if b[2] == b[5] && b[5] == b[8] && b[2] != None then b[2]
    else if b[0] == b[4] && b[4] == b[8] && b[0] != None then b[0]
    else if b[2] == b[4] && b[4] == b[6] && b[2] != None then b[2]
    else None
  }

  /** The eight line tests of `Complete` written out on cell indices. */
  lemma LineTests(b: Board)
    ensures Complete(b, Wins[0]) == (b[0] == b[1] && b[1] == b[2] && b[0] != None)
    ensures Complete(b, Wins[1]) == (b[3] == b[4] && b[4] == b[5] && b[3] != None)
    ensures Complete(b, Wins[2]) == (b[6] == b[7] && b[7] == b[8] && b[6] != None)
    ensures Complete(b, Wins[3]) == (b[0] == b[3] && b[3] == b[6] && b[0] != None)
    ensures Complete(b, Wins[4]) == (b[1] == b[4] && b[4] == b[7] && b[1] != None)
    ensures Complete(b, Wins[5]) == (b[2] == b[5] && b[5] == b[8] && b[2] != None)
    ensures Complete(b, Wins[6]) == (b[0] == b[4] && b[4] == b[8] && b[0] != None)
    ensures Complete(b, Wins[7]) == (b[2] == b[4] && b[4] == b[6] && b[2] != None)
  {
    WinsEntries();
  }

  /** Every macro entry recomputed from its sub-board: entry i is the status of
      sub-board (i / 3, i % 3). */
  function Statuses(board: Grid): Board {
    seq(9, i requires 0 <= i < 9 => Status(SubBoard(board, i / 3, i % 3)))
  }

  method RecomputeMacroboard(board: Grid) returns (macro: Board)
    ensures macro == Statuses(board)
  {
    macro := EmptyBoard();
    ghost var st := Statuses(board);
    var s := State(board, macro);
    for r := 0 to 3
      invariant SamePrefix(macro, st, 3 * r)
    {
      for c := 0 to 3
        invariant SamePrefix(macro, st, 3 * r + c)
      {
        var w := GetSubWinner(s, r, c);
        RecomputedStep(board, macro, st, r, c, w);
        macro := macro[3 * r + c := w];
      }
    }
    SamePrefixAll(macro, st);
  }

  /** The first `n` entries of `macro` and `st` agree. */
  ghost predicate SamePrefix(macro: Board, st: Board, n: int)
    requires 0 <= n <= 9
  {
    forall i | 0 <= i < n :: macro[i] == st[i]
  }

  lemma SamePrefixStep(macro: Board, st: Board, n: int, w: Player)
    requires 0 <= n < 9 && SamePrefix(macro, st, n) && w == st[n]
    ensures SamePrefix(macro[n := w], st, n + 1)
  {
  }

  lemma SamePrefixAll(macro: Board, st: Board)
    requires SamePrefix(macro, st, 9)
    ensures macro == st
  {
    assert |macro| == |st| == 9;
  }

  /** Setting entry 3 * r + c to the status of sub-board (r, c) extends the agreement by one. */
  lemma RecomputedStep(board: Grid, macro: Board, st: Board, r: int, c: int, w: Player)
    requires 0 <= r < 3 && 0 <= c < 3 && st == Statuses(board) && SamePrefix(macro, st, 3 * r + c)
    requires w == Status(SubBoard(board, r, c))
    ensures SamePrefix(macro[3 * r + c := w], st, 3 * r + c + 1)
  {
    StatusAt(board, r, c);
    SamePrefixStep(macro, st, 3 * r + c, w);
  }

  /** Entry 3 * r + c of the recomputed macro board is the status of sub-board (r, c). */
  lemma StatusAt(board: Grid, r: int, c: int)
    requires 0 <= r < 3 && 0 <= c < 3
    ensures Statuses(board)[3 * r + c] == Status(SubBoard(board, r, c))
  {
    var i := 3 * r + c;
    SplitBase3(i);
    assert i / 3 == r && i % 3 == c;
  }

  /** A macro index is 3 * (row) + (column) for its row i / 3 and column i % 3. */
  lemma SplitBase3(i: int)
    requires 0 <= i < 9
    ensures 0 <= i / 3 < 3 && 0 <= i % 3 < 3 && i == 3 * (i / 3) + i % 3
  {
    if i < 3 {
    } else if i < 6 {
    } else {
    }
  }

  method CountEmpty(board: Grid) returns (empty: int)
    ensures empty == GridMarks(board, None)
  {
    empty := 0;
    for r := 0 to 9
      invariant empty == GridMarks(board[..r], None)
    {
      for c := 0 to 9
        invariant empty == GridMarks(board[..r], None) + LegacyTTT.Marks(board[r][..c], None)
      {
        assert board[r][..c + 1] == board[r][..c] + [board[r][c]];
        if board[r][c] == None {
          empty := empty + 1;
        }
      }
      assert board[r][..9] == board[r];
      assert board[..r + 1][..r] == board[..r];
    }
    assert board[..9] == board;
  }

  /** The grid with `p` written at row `m.y`, column `m.x`. */
  function Write(board: Grid, m: Move, p: Player): (r: Grid)
    requires OnGrid(m)
    ensures r[m.y][m.x] == p
    ensures forall y, x | 0 <= y < 9 && 0 <= x < 9 && (y, x) != (m.y, m.x) :: r[y][x] == board[y][x]
  {
    board[m.y := board[m.y][m.x := p]]
  }

  /** The macro entry a move names: (m.y/3, m.x/3) is the sub-board it lands in. */
  function Home(m: Move): (r: int)
    ensures OnGrid(m) ==> 0 <= r < 9
  {
    3 * (m.y / 3) + m.x / 3
  }

  /** The macro entry the move sends the opponent to: (m.y%3, m.x%3). */
  function Destination(m: Move): (r: int)
    ensures OnGrid(m) ==> 0 <= r < 9
  {
    3 * (m.y % 3) + m.x % 3
  }

  /** The final pass of doMove: when the destination is Active, every Active entry is reset
      to None except the destination itself while the game goes on. */
  function Narrow(macro: Board, dest: Cell, stillPlaying: bool): (r: Board)
    ensures macro[dest] != Active ==> r == macro
    ensures macro[dest] == Active ==>
      (forall i | 0 <= i < 9 :: r[i] == Active <==> i == dest && stillPlaying)
      && forall i | 0 <= i < 9 && macro[i] != Active :: r[i] == macro[i]
  {
    if macro[dest] != Active then macro
    else seq(9, i requires 0 <= i < 9 => if (i != dest || !stillPlaying) && macro[i] == Active then None else macro[i])
  }

  method NarrowMacroboard(macro: Board, dest: Cell, stillPlaying: bool) returns (r: Board)
    ensures r == Narrow(macro, dest, stillPlaying)
  {
    r := macro;
    if r[dest] == Active {
      for row := 0 to 3
        invariant forall i | 0 <= i < 9 ::
          r[i] == (if i < 3 * row && (i != dest || !stillPlaying) && macro[i] == Active then None else macro[i])
      {
        for col := 0 to 3
          invariant forall i | 0 <= i < 9 ::
            r[i] == (if i < 3 * row + col && (i != dest || !stillPlaying) && macro[i] == Active then None else macro[i])
        {
          if (3 * row + col != dest || !stillPlaying) && r[3 * row + col] == Active {
            r := r[3 * row + col := None];
          }
        }
      }
    }
  }

  /** The state after the current player plays `m`; a move into a sub-board that is not
      Active leaves the state as it was. */
  function Next(s: State, m: Move): (r: State)
    requires OnGrid(m)
    ensures s.macroboard[Home(m)] != Active ==> r == s
    ensures s.macroboard[Home(m)] == Active ==> r.board == Write(s.board, m, CurrentPlayer(s))
  {
    if s.macroboard[Home(m)] != Active then s
    else
      var board := Write(s.board, m, CurrentPlayer(s));
      var macro := Statuses(board);
      var stillPlaying := GridMarks(board, None) > 0 && MacroWinner(macro) == None;
      State(board, Narrow(macro, Destination(m), stillPlaying))
  }

  method DoMove(state: State, m: Move) returns (result: State)
    requires OnGrid(m)
    ensures result == Next(state, m)
  {
    result := state;
    var home := 3 * (m.y / 3) + m.x / 3;
    assert home == Home(m);
    if state.macroboard[home] != Active {
      return result;
    }
    var p := GetCurrentPlayer(state);
    result := result.(board := result.board[m.y := result.board[m.y][m.x := p]]);
    assert result.board == Write(state.board, m, CurrentPlayer(state));
    var macro := RecomputeMacroboard(result.board);
    var empty := CountEmpty(result.board);
    var stillPlaying := empty > 0 && MacroWinner(macro) == None;
    var dest := 3 * (m.y % 3) + m.x % 3;
    assert dest == Destination(m);
    var narrowed := NarrowMacroboard(macro, dest, stillPlaying);
    result := result.(macroboard := narrowed);
    assert Next(state, m) == State(result.board, Narrow(Statuses(result.board), Destination(m), stillPlaying));
  }

  /** Some cell of the grid is empty. */
  predicate HasEmpty(board: Grid) {
    exists y, x | 0 <= y < 9 && 0 <= x < 9 :: board[y][x] == None
  }

  /** doMove's count of empty cells is positive exactly when the grid has an empty cell. */
  lemma EmptyCount(board: Grid)
    ensures GridMarks(board, None) > 0 <==> HasEmpty(board)
  {
    InConcat(board, None);
  }

  /** After an accepted move each macro entry whose sub-board is decided or full shows
      that status. When the destination's sub-board is unfinished, it is the only Active
      entry while the grid has an empty cell and there is no macro winner, and otherwise
      no entry is Active. When the destination is finished, every entry is the status of
      its sub-board, so every unfinished sub-board is Active. */
  lemma NextMacroboard(s: State, m: Move)
    requires OnGrid(m) && s.macroboard[Home(m)] == Active
    ensures var r := Next(s, m);
      var statuses := Statuses(r.board);
      var dest := Destination(m);
      var stillPlaying := HasEmpty(r.board) && MacroWinner(statuses) == None;
      && (forall i | 0 <= i < 9 && statuses[i] != Active :: r.macroboard[i] == statuses[i])
      && (statuses[dest] == Active && stillPlaying ==> forall i | 0 <= i < 9 :: r.macroboard[i] == Active <==> i == dest)
      && (statuses[dest] == Active && !stillPlaying ==> forall i | 0 <= i < 9 :: r.macroboard[i] != Active)
      && (statuses[dest] != Active ==> r.macroboard == statuses)
  {
    EmptyCount(Next(s, m).board);
  }

  /** Cell `m` is empty and its sub-board is Active. */
  predicate Playable(s: State, m: Move)
    requires OnGrid(m)
  {
    s.macroboard[Home(m)] == Active && s.board[m.y][m.x] == None
  }

  /** The legal cells of row `y` among its first `n` columns, left to right. */
  function RowMoves(s: State, y: int, n: nat): seq<Move>
    requires 0 <= y < 9 && n <= 9
  {
    if n == 0 then []
    else
      var x := n - 1;
      RowMoves(s, y, x) + (if Playable(s, Move(x, y)) then [Move(x, y)] else [])
  }

  /** Every cell listed for row `y` lies in that row, among its first `n` columns, and is playable. */
  lemma {:induction false} RowMovesAreLegal(s: State, y: int, n: nat)
    requires 0 <= y < 9 && n <= 9
    ensures forall k | 0 <= k < |RowMoves(s, y, n)| :: var m := RowMoves(s, y, n)[k];
      m.y == y && 0 <= m.x < n && Playable(s, m)
  {
    if n > 0 {
      RowMovesAreLegal(s, y, n - 1);
      var prev := RowMoves(s, y, n - 1);
      var here := if Playable(s, Move(n - 1, y)) then [Move(n - 1, y)] else [];
      assert RowMoves(s, y, n) == prev + here;
      forall k | 0 <= k < |prev + here|
        ensures (prev + here)[k] == if k < |prev| then prev[k] else here[k - |prev|]
      {
      }
    }
  }

  /** Every playable cell of row `y` among its first `n` columns is listed. */
  lemma {:induction false} RowMovesAreAll(s: State, y: int, n: nat, x: int)
    requires 0 <= y < 9 && n <= 9 && 0 <= x < n && Playable(s, Move(x, y))
    ensures Move(x, y) in RowMoves(s, y, n)
  {
    var prev := RowMoves(s, y, n - 1);
    var here := if Playable(s, Move(n - 1, y)) then [Move(n - 1, y)] else [];
    assert RowMoves(s, y, n) == prev + here;
    if x < n - 1 {
      RowMovesAreAll(s, y, n - 1, x);
      InLeft(prev, here, Move(x, y));
    } else {
      assert here == [Move(x, y)];
      assert (prev + here)[|prev|] == Move(x, y);
    }
  }

  lemma InLeft<T>(a: seq<T>, b: seq<T>, x: T)
    requires x in a
    ensures x in a + b
  {
    var k :| 0 <= k < |a| && a[k] == x;
    assert (a + b)[k] == x;
  }

  /** The cells of a row are listed left to right. */
  lemma {:induction false} RowMovesAreOrdered(s: State, y: int, n: nat)
    requires 0 <= y < 9 && n <= 9
    ensures forall j, k | 0 <= j < k < |RowMoves(s, y, n)| :: Order(RowMoves(s, y, n)[j]) < Order(RowMoves(s, y, n)[k])
  {
    if n > 0 {
      RowMovesAreOrdered(s, y, n - 1);
      RowMovesAreLegal(s, y, n - 1);
      var prev := RowMoves(s, y, n - 1);
      var here := if Playable(s, Move(n - 1, y)) then [Move(n - 1, y)] else [];
      assert RowMoves(s, y, n) == prev + here;
      OrderedConcat(prev, here);
    }
  }

  /** One more column of row `y` extends the moves collected after `prefix` by that cell, if it is playable. */
  lemma ExtendRow(s: State, y: int, x: nat, prefix: seq<Move>)
    requires 0 <= y < 9 && x < 9
    ensures prefix + RowMoves(s, y, x) + (if Playable(s, Move(x, y)) then [Move(x, y)] else [])
      == prefix + RowMoves(s, y, x + 1)
  {
    var here := if Playable(s, Move(x, y)) then [Move(x, y)] else [];
    assert RowMoves(s, y, x + 1) == RowMoves(s, y, x) + here;
    assert prefix + RowMoves(s, y, x) + here == prefix + (RowMoves(s, y, x) + here);
  }

  /** Row-major position of a move. */
  function Order(m: Move): int {
    9 * m.y + m.x
  }

  /** Two lists in row-major order, the first wholly before the second, concatenate into one. */
  lemma OrderedConcat(xs: seq<Move>, ys: seq<Move>)
    requires forall j, k | 0 <= j < k < |xs| :: Order(xs[j]) < Order(xs[k])
    requires forall j, k | 0 <= j < k < |ys| :: Order(ys[j]) < Order(ys[k])
    requires forall j, k | 0 <= j < |xs| && 0 <= k < |ys| :: Order(xs[j]) < Order(ys[k])
    ensures forall j, k | 0 <= j < k < |xs + ys| :: Order((xs + ys)[j]) < Order((xs + ys)[k])
  {
    forall j, k | 0 <= j < k < |xs + ys|
      ensures Order((xs + ys)[j]) < Order((xs + ys)[k])
    {
      if k < |xs| {
        assert (xs + ys)[j] == xs[j] && (xs + ys)[k] == xs[k];
      } else if j < |xs| {
        assert (xs + ys)[j] == xs[j] && (xs + ys)[k] == ys[k - |xs|];
      } else {
        assert (xs + ys)[j] == ys[j - |xs|] && (xs + ys)[k] == ys[k - |xs|];
      }
    }
  }

  /** The legal cells of the first `n` rows in row-major order. */
  function RowsMoves(s: State, n: nat): seq<Move>
    requires n <= 9
  {
    if n == 0 then [] else RowsMoves(s, n - 1) + RowMoves(s, n - 1, 9)
  }

  /** Every cell listed lies on the grid, in one of the first `n` rows, and is playable. */
  lemma {:induction false} RowsMovesAreLegal(s: State, n: nat)
    requires n <= 9
    ensures forall k | 0 <= k < |RowsMoves(s, n)| :: var m := RowsMoves(s, n)[k];
      OnGrid(m) && m.y < n && Playable(s, m)
  {
    if n > 0 {
      RowsMovesAreLegal(s, n - 1);
      RowMovesAreLegal(s, n - 1, 9);
      var prev := RowsMoves(s, n - 1);
      var here := RowMoves(s, n - 1, 9);
      forall k | 0 <= k < |prev + here|
        ensures (prev + here)[k] == if k < |prev| then prev[k] else here[k - |prev|]
      {
      }
    }
  }

  /** Every playable cell of the first `n` rows is listed. */
  lemma {:induction false} RowsMovesAreAll(s: State, n: nat, x: int, y: int)
    requires n <= 9 && 0 <= y < n && 0 <= x < 9 && Playable(s, Move(x, y))
    ensures Move(x, y) in RowsMoves(s, n)
  {
    if y < n - 1 {
      RowsMovesAreAll(s, n - 1, x, y);
    } else {
      RowMovesAreAll(s, y, 9, x);
    }
  }

  /** The listing is in row-major order. */
  lemma {:induction false} RowsMovesAreOrdered(s: State, n: nat)
    requires n <= 9
    ensures forall j, k | 0 <= j < k < |RowsMoves(s, n)| :: Order(RowsMoves(s, n)[j]) < Order(RowsMoves(s, n)[k])
  {
    if n > 0 {
      RowsMovesAreOrdered(s, n - 1);
      RowsMovesAreLegal(s, n - 1);
      RowMovesAreOrdered(s, n - 1, 9);
      RowMovesAreLegal(s, n - 1, 9);
      var prev := RowsMoves(s, n - 1);
      var here := RowMoves(s, n - 1, 9);
      assert forall j, k | 0 <= j < |prev| && 0 <= k < |here| :: Order(prev[j]) < Order(here[k]);
      OrderedConcat(prev, here);
    }
  }

  /** The legal moves: none once the macro board has a winner, otherwise every empty cell
      whose sub-board is Active, in row-major order. */
  function LegalMoves(s: State): (r: seq<Move>)
    ensures forall m :: m in r <==>
      MacroWinner(s.macroboard) == None && OnGrid(m) && Playable(s, m)
    ensures forall j, k | 0 <= j < k < |r| :: Order(r[j]) < Order(r[k])
  {
    var r := if MacroWinner(s.macroboard) != None then [] else RowsMoves(s, 9);
    RowsMovesAreLegal(s, 9);
    RowsMovesAreOrdered(s, 9);
    forall m | MacroWinner(s.macroboard) == None && OnGrid(m) && Playable(s, m)
      ensures m in r
    {
      RowsMovesAreAll(s, 9, m.x, m.y);
    }
    r
  }

  method GetMoves(state: State) returns (moves: seq<Move>)
    ensures moves == LegalMoves(state)
  {
    moves := [];
    if MacroWinner(state.macroboard) == None {
      for r := 0 to 9
        invariant moves == RowsMoves(state, r)
      {
        for c := 0 to 9
          invariant moves == RowsMoves(state, r) + RowMoves(state, r, c)
        {
          var home := 3 * (r / 3) + c / 3;
          assert home == Home(Move(c, r));
          ghost var before := moves;
          if state.macroboard[home] == Active && state.board[r][c] == None {
            moves := moves + [Move(c, r)];
          }
          assert moves == before + (if Playable(state, Move(c, r)) then [Move(c, r)] else []);
          ExtendRow(state, r, c, RowsMoves(state, r));
        }
        assert RowsMoves(state, r + 1) == RowsMoves(state, r) + RowMoves(state, r, 9);
      }
    }
  }

  /** In the default state every row offers all nine of its cells. */
  lemma {:induction false} DefaultRowMoves(y: int, n: nat)
    requires 0 <= y < 9 && n <= 9
    ensures |RowMoves(DefaultState(), y, n)| == n
  {
    if n > 0 {
      DefaultRowMoves(y, n - 1);
    }
  }

  lemma {:induction false} DefaultRowsMoves(n: nat)
    requires n <= 9
    ensures |RowsMoves(DefaultState(), n)| == 9 * n
  {
    if n > 0 {
      DefaultRowsMoves(n - 1);
      DefaultRowMoves(n - 1, 9);
    }
  }

  /** From the default state all 81 cells are legal. */
  lemma DefaultStateOffersEveryCell()
    ensures |LegalMoves(DefaultState())| == 81
  {
    assert MacroWinner(DefaultState().macroboard) == None;
    DefaultRowsMoves(9);
  }
}
