/** Sub-board rules of the newer generation (TTT.cpp): a board is nine cells checked
    against the eight lines of `Common.Wins`. TTTGame.h declares the same interface, and
    its members are taken to have these definitions. */
module TTT {
  import opened Common

  /** The owner of the first complete line, trying rows, then columns, then diagonals;
      None when no line is complete. */
  function GetWinner(b: Board): (r: Player)
    ensures r == None <==> forall w | 0 <= w < 8 :: !Complete(b, Wins[w])
    ensures r != None ==> exists w | 0 <= w < 8 ::
      Complete(b, Wins[w]) && b[Wins[w].a] == r && forall v | 0 <= v < w :: !Complete(b, Wins[v])
  {
    // Complete(b, Wins[k]) is the source's test of line k: its three cells are equal and not None.
    if Complete(b, Wins[0]) then b[0]
    else if Complete(b, Wins[1]) then b[3]
    else if Complete(b, Wins[2]) then b[6]
    else if Complete(b, Wins[3]) then b[0]
    else if Complete(b, Wins[4]) then b[1]
    else if Complete(b, Wins[5]) then b[2]
    else if Complete(b, Wins[6]) then b[0]
    else if Complete(b, Wins[7]) then b[2]
    else None
  }

  /** The ascending indices below `n` whose cell holds `p`. */
  function CellsBelow(b: Board, p: Player, n: nat): (r: seq<int>)
    requires n <= 9
    ensures |r| <= n
    ensures forall k | 0 <= k < |r| :: 0 <= r[k] < n && b[r[k]] == p
    ensures forall c | 0 <= c < n && b[c] == p :: c in r
    ensures forall j, k | 0 <= j < k < |r| :: r[j] < r[k]
  {
    if n == 0 then [] else CellsBelow(b, p, n - 1) + (if b[n - 1] == p then [n - 1] else [])
  }

  /** The ascending indices of the cells holding `p`. */
  function Cells(b: Board, p: Player): seq<int> {
    CellsBelow(b, p, |b|)
  }

  /** The legal moves of a board: none once it is won, otherwise its empty cells in ascending order. */
  function Moves(b: Board): (r: seq<int>)
    ensures |r| <= 9
    ensures forall c :: c in r <==> GetWinner(b) == None && 0 <= c < 9 && b[c] == None
    ensures forall j, k | 0 <= j < k < |r| :: r[j] < r[k]
  {
    if GetWinner(b) != None then [] else Cells(b, None)
  }

  method GetMoves(b: Board) returns (moves: seq<int>)
    ensures moves == Moves(b)
    ensures forall c :: c in moves <==> GetWinner(b) == None && 0 <= c < 9 && b[c] == None
    ensures forall j, k | 0 <= j < k < |moves| :: moves[j] < moves[k]
  {
    moves := [];
    if GetWinner(b) != None {
      return;
    }
    var m := 0;
    while m < 9
      invariant 0 <= m <= 9
      invariant moves == CellsBelow(b, None, m)
    {
      if b[m] == None {
        moves := moves + [m];
      }
      m := m + 1;
    }
  }

  method GetCellsOccupiedByPlayer(b: Board, p: Player) returns (cells: seq<int>)
    ensures cells == Cells(b, p)
    ensures forall c :: c in cells <==> 0 <= c < 9 && b[c] == p
    ensures forall j, k | 0 <= j < k < |cells| :: cells[j] < cells[k]
  {
    cells := [];
    var c := 0;
    while c < 9
      invariant 0 <= c <= 9
      invariant cells == CellsBelow(b, p, c)
    {
      if b[c] == p {
        cells := cells + [c];
      }
      c := c + 1;
    }
  }

  /** A copy of the board with cell `m` set to `p`; the input is a value and stays as it was. */
  function DoMove(b: Board, m: int, p: Player): (r: Board)
    requires 0 <= m < 9
    ensures r[m] == p
    ensures forall i | 0 <= i < 9 && i != m :: r[i] == b[i]
  {
    b[m := p]
  }

  /** Which players could still complete some line: `Both` when some line is free of X
      and some (possibly other) line is free of O; `O` when only X-free lines exist;
      `X` when only O-free lines exist; `None` when every line holds both marks. */
  function OpenLines(b: Board): (r: Player)
  {
    var oCan := exists w | 0 <= w < 8 :: FreeOf(b, Wins[w], X);
    var xCan := exists w | 0 <= w < 8 :: FreeOf(b, Wins[w], O);
    if oCan && xCan then Both else if oCan then O else if xCan then X else None
  }

  /** TTT.cpp's winnability: the winner itself on a won board, otherwise the open-line classification. */
  function Winnability(b: Board): Player {
    var w := GetWinner(b);
    if w != None then w else OpenLines(b)
  }

  /** The line scan shared by both generations' IsWinnableForPlayer: an accumulator that
      flips between O and X and gives up with Both as soon as both sides have an open line. */
  method ClassifyOpenLines(b: Board) returns (winnableBy: Player)
    ensures winnableBy == OpenLines(b)
  {
    winnableBy := None;
    var w := 0;
    while w < 8
      invariant 0 <= w <= 8
      invariant var oSeen := exists v | 0 <= v < w :: FreeOf(b, Wins[v], X);
                var xSeen := exists v | 0 <= v < w :: FreeOf(b, Wins[v], O);
                !(oSeen && xSeen) && winnableBy == (if oSeen then O else if xSeen then X else None)
    {
      var win := Wins[w];
      if b[win.a] != X && b[win.b] != X && b[win.c] != X {
        if winnableBy == X {
          return Both;
        } else {
          winnableBy := O;
        }
      }
      if b[win.a] != O && b[win.b] != O && b[win.c] != O {
        if winnableBy == O {
          return Both;
        } else {
          winnableBy := X;
        }
      }
      w := w + 1;
    }
  }

  method IsWinnableForPlayer(b: Board) returns (r: Player)
    ensures r == Winnability(b)
    ensures GetWinner(b) != None ==> r == GetWinner(b)
  {
    var winner := GetWinner(b);
    if winner != None {
      return winner;
    }
    r := ClassifyOpenLines(b);
  }

  /** On an unwon board the classification is one of the four open-line outcomes, and it is
      Both exactly when an X-free line and an O-free line both exist. */
  lemma {:induction false} WinnabilityOfUnwonBoard(b: Board)
    requires GetWinner(b) == None
    ensures Winnability(b) in {Both, X, O, None}
    ensures Winnability(b) == Both <==>
      (exists w | 0 <= w < 8 :: FreeOf(b, Wins[w], X)) && (exists w | 0 <= w < 8 :: FreeOf(b, Wins[w], O))
    ensures Winnability(b) == None <==> forall w | 0 <= w < 8 :: !FreeOf(b, Wins[w], X) && !FreeOf(b, Wins[w], O)
  {
  }

  lemma EmptyBoardIsWinnableByBoth()
    ensures Winnability(EmptyBoard()) == Both
  {
    assert FreeOf(EmptyBoard(), Wins[0], X);
  }

  function Opponent(p: Player): Player {
    if p == X then O else X
  }

  /** One step of TTT.cpp's line loop: an opponent-free line needs 3 minus the player's
      marks, and the accumulator keeps the smallest need, with 0 standing for "nothing
      found yet". */
  function Step(board: Board, player: Player, l: Line, acc: int): int {
    if FreeOf(board, l, Opponent(player)) then
      var num := 3 - LineCount(board, l, player);
      if num < acc || acc == 0 then num else acc
    else acc
  }

  /** The fold of the line loop from line `w` on. */
  function MinMovesFrom(board: Board, player: Player, w: nat, acc: int): int
    requires w <= 8
    decreases 8 - w
  {
    if w == 8 then acc else MinMovesFrom(board, player, w + 1, Step(board, player, Wins[w], acc))
  }

  function MinimumMovesToWin(board: Board, player: Player): int {
    if GetWinner(board) != None then 0 else MinMovesFrom(board, player, 0, 0)
  }

  method GetMinimumMovesToWin(board: Board, player: Player) returns (result: int)
    ensures result == MinimumMovesToWin(board, player)
  {
    if GetWinner(board) != None {
      return 0;
    }
    result := 0;
    var w := 0;
    while w < 8
      invariant 0 <= w <= 8
      invariant MinMovesFrom(board, player, w, result) == MinMovesFrom(board, player, 0, 0)
    {
      result := LineStep(board, player, Wins[w], result);
      w := w + 1;
    }
  }

  /** The body of TTT.cpp's line loop for one line. */
  method LineStep(board: Board, player: Player, win: Line, acc: int) returns (result: int)
    ensures result == Step(board, player, win, acc)
  {
    result := acc;
    var opponent := if player == X then O else X;
    assert opponent == Opponent(player);
    if board[win.a] != opponent && board[win.b] != opponent && board[win.c] != opponent {
      var pCount := 0;
      if board[win.a] == player { pCount := pCount + 1; }
      if board[win.b] == player { pCount := pCount + 1; }
      if board[win.c] == player { pCount := pCount + 1; }
      assert pCount == LineCount(board, win, player);
      var num := 3 - pCount;
      if num < result || result == 0 {
        result := num;
      }
    }
  }

  /** What the fold computes for a real player on an unwon board: 0 when every line holds
      an opponent mark, otherwise the least number of marks still needed on an
      opponent-free line, which lies in 1..3. */
  lemma {:induction false} MinimumMovesToWinIsLeastNeed(board: Board, player: Player)
    requires player == X || player == O
    ensures var r := MinimumMovesToWin(board, player);
      && 0 <= r <= 3
      && (r == 0 <==> GetWinner(board) != None || forall w | 0 <= w < 8 :: !FreeOf(board, Wins[w], Opponent(player)))
      && (r != 0 ==> exists w | 0 <= w < 8 :: FreeOf(board, Wins[w], Opponent(player)) && 3 - LineCount(board, Wins[w], player) == r)
      && (forall w | 0 <= w < 8 && GetWinner(board) == None && FreeOf(board, Wins[w], Opponent(player)) :: r <= 3 - LineCount(board, Wins[w], player))
  {
    if GetWinner(board) == None {
      MinMovesFromIsLeastNeed(board, player, 0, 0);
      assert LeastNeed(board, player, 8, MinMovesFrom(board, player, 0, 0));
    }
  }

  /** What the accumulator holds after the first `n` lines: 0 when none of them is free of
      the opponent, otherwise the least need among those that are, which lies in 1..3. */
  predicate LeastNeed(board: Board, player: Player, n: nat, acc: int)
    requires n <= 8
  {
    && 0 <= acc <= 3
    && (acc == 0 <==> forall v | 0 <= v < n :: !FreeOf(board, Wins[v], Opponent(player)))
    && (acc != 0 ==> exists v | 0 <= v < n :: FreeOf(board, Wins[v], Opponent(player)) && 3 - LineCount(board, Wins[v], player) == acc)
    && (forall v | 0 <= v < n && FreeOf(board, Wins[v], Opponent(player)) :: acc <= 3 - LineCount(board, Wins[v], player))
  }

  lemma {:induction false} MinMovesFromIsLeastNeed(board: Board, player: Player, w: nat, acc: int)
    requires player == X || player == O
    requires GetWinner(board) == None
    requires w <= 8 && LeastNeed(board, player, w, acc)
    ensures LeastNeed(board, player, 8, MinMovesFrom(board, player, w, acc))
    decreases 8 - w
  {
    if w < 8 {
      StepKeepsLeastNeed(board, player, w, acc);
      MinMovesFromIsLeastNeed(board, player, w + 1, Step(board, player, Wins[w], acc));
    }
  }

  /** One step of the line loop keeps the accumulator's meaning for one more line. */
  lemma StepKeepsLeastNeed(board: Board, player: Player, w: nat, acc: int)
    requires player == X || player == O
    requires GetWinner(board) == None
    requires w < 8 && LeastNeed(board, player, w, acc)
    ensures LeastNeed(board, player, w + 1, Step(board, player, Wins[w], acc))
  {
    var next := Step(board, player, Wins[w], acc);
    if FreeOf(board, Wins[w], Opponent(player)) {
      NoCompleteLineNeedsAMove(board, player, w);
      var num := 3 - LineCount(board, Wins[w], player);
      if num < acc || acc == 0 {
        assert next == num;
      } else {
        assert next == acc;
        var v :| 0 <= v < w && FreeOf(board, Wins[v], Opponent(player)) && 3 - LineCount(board, Wins[v], player) == acc;
        assert v < w + 1;
      }
    } else {
      assert next == acc;
      if acc != 0 {
        var v :| 0 <= v < w && FreeOf(board, Wins[v], Opponent(player)) && 3 - LineCount(board, Wins[v], player) == acc;
        assert v < w + 1;
      }
    }
  }

  /** On an unwon board no line holds three marks of a real player. */
  lemma NoCompleteLineNeedsAMove(board: Board, player: Player, w: nat)
    requires player == X || player == O
    requires GetWinner(board) == None && w < 8
    ensures LineCount(board, Wins[w], player) < 3
  {
    assert !Complete(board, Wins[w]);
  }
}
