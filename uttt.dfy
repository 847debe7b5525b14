/** Super-board rules of the newer generation (UTTT.cpp): playing a move on a copy of
    the state, and listing the legal moves. A move (x, y) lands in sub-board
    `MacroIndex` and cell `CellIndex`, and that cell index names the sub-board the
    opponent is sent to. No legality check is made: the caller passes a move on the grid. */
module UTTT {
  import opened Common
  import TTT
  import opened GameState

  /** The sub-boards with `p` written into the cell the move names. */
  function Place(g: Grid, m: Move, p: Player): (r: Grid)
    requires OnGrid(m)
    ensures r[MacroIndex(m)][CellIndex(m)] == p
    ensures forall mb, md | 0 <= mb < 9 && 0 <= md < 9 && (mb != MacroIndex(m) || md != CellIndex(m)) :: r[mb][md] == g[mb][md]
  {
    g[MacroIndex(m) := g[MacroIndex(m)][CellIndex(m) := p]]
  }

  /** The mover owns macro line `l`. */
  predicate MacroLine(macro: Board, l: Line, p: Player) {
    macro[l.a] == p && macro[l.a] == macro[l.b] && macro[l.b] == macro[l.c]
  }

  /** Every None entry of the macro board made Active, the others unchanged. */
  function OpenUnfinished(macro: Board): (r: Board)
    ensures forall i | 0 <= i < 9 :: r[i] == (if macro[i] == None then Active else macro[i])
  {
    seq(9, i requires 0 <= i < 9 => if macro[i] == None then Active else macro[i])
  }

  /** UTTT.cpp's rule for the sub-board the opponent is sent to: when it is won, every
      None entry becomes Active; otherwise that one entry becomes Active and the rest,
      Active ones included, stay as they are. */
  function SendTo(macro: Board, dest: Cell): Board {
    if macro[dest] == X || macro[dest] == O then OpenUnfinished(macro)
    else macro[dest := Active]
  }

  /** The loop shared by UTTT.cpp and UTTTGame.cpp that opens every unfinished sub-board. */
  method OpenUnfinishedBoards(macro: Board) returns (r: Board)
    ensures r == OpenUnfinished(macro)
  {
    r := macro;
    var i := 0;
    while i < 9
      invariant 0 <= i <= 9
      invariant forall k | 0 <= k < 9 :: r[k] == (if k < i && macro[k] == None then Active else macro[k])
    {
      if r[i] == None {
        r := r[i := Active];
      }
      i := i + 1;
    }
  }

  /** The winner scan shared by UTTT.cpp and UTTTGame.cpp: some macro line is the mover's. */
  method HasMacroLine(macro: Board, player: Player) returns (found: bool)
    ensures found <==> exists w | 0 <= w < 8 :: MacroLine(macro, Wins[w], player)
  {
    found := false;
    var w := 0;
    while w < 8
      invariant 0 <= w <= 8
      invariant forall v | 0 <= v < w :: !MacroLine(macro, Wins[v], player)
    {
      var win := Wins[w];
      if macro[win.a] == player && macro[win.a] == macro[win.b] && macro[win.b] == macro[win.c] {
        assert MacroLine(macro, Wins[w], player);
        return true;
      }
      w := w + 1;
    }
  }

  function Flip(t: Player): Player {
    if t == O then X else O
  }

  /** The macro board after the move's sub-board is checked: it shows the mover when the
      move completed one of the mover's lines there. */
  function MarkWin(s: State, m: Move): Board
    requires OnGrid(m)
  {
    if TTT.GetWinner(Place(s.subBoards, m, s.turn)[MacroIndex(m)]) == s.turn then s.macroBoard[MacroIndex(m) := s.turn]
    else s.macroBoard
  }

  /** The state after the player to move plays `m`. */
  function Next(s: State, m: Move): (r: State)
    requires OnGrid(m)
    ensures r.subBoards[MacroIndex(m)][CellIndex(m)] == s.turn
    ensures forall mb, md | 0 <= mb < 9 && 0 <= md < 9 && (mb != MacroIndex(m) || md != CellIndex(m)) ::
      r.subBoards[mb][md] == s.subBoards[mb][md]
    ensures r.round == (if s.turn == X then s.round + 1 else s.round)
    ensures r.turn != s.turn && r.turn in {X, O}
    ensures r.winner != s.winner ==> r.winner == s.turn && r.round >= 9 && exists w | 0 <= w < 8 :: MacroLine(r.macroBoard, Wins[w], s.turn)
    ensures r.subGamesWinnableBy == s.subGamesWinnableBy && r.winsMe == s.winsMe && r.winsOpp == s.winsOpp
    ensures r.player == s.player && r.opponent == s.opponent && r.timePerMove == s.timePerMove
  {
    var mm := MacroIndex(m);
    var p := s.turn;
    var sub := Place(s.subBoards, m, p);
    var macro := SendTo(MarkWin(s, m), CellIndex(m));
    var round := if p == X then s.round + 1 else s.round;
    var winner := if round >= 9 && exists w | 0 <= w < 8 :: MacroLine(macro, Wins[w], p) then p else s.winner;
    s.(subBoards := sub, macroBoard := macro, round := round, winner := winner, turn := Flip(s.turn))
  }

  method DoMove(state: State, m: Move) returns (result: State)
    requires OnGrid(m)
    ensures result == Next(state, m)
  {
    var subMove := m.x % 3 + (m.y % 3) * 3;
    var player := state.turn;
    assert subMove == CellIndex(m);
    result := PlaceMark(state, m);
    ghost var macro := SendTo(result.macroBoard, subMove);
    if result.macroBoard[subMove] == X || result.macroBoard[subMove] == O {
      var openedBoards := OpenUnfinishedBoards(result.macroBoard);
      result := result.(macroBoard := openedBoards);
    } else {
      result := result.(macroBoard := result.macroBoard[subMove := Active]);
    }
    assert result.macroBoard == macro;

    if player == X {
      result := result.(round := result.round + 1);
    }

    ghost var wins := exists w | 0 <= w < 8 :: MacroLine(macro, Wins[w], player);
    if result.round >= 9 {
      var won := HasMacroLine(result.macroBoard, player);
      if won {
        result := result.(winner := player);
      }
    }
    assert result.winner == if result.round >= 9 && wins then player else state.winner;

    result := result.(turn := if state.turn == O then X else O);
    NextFields(state, m, result);
  }

  /** A state with the fields Next gives is Next's result. */
  lemma NextFields(s: State, m: Move, r: State)
    requires OnGrid(m)
    requires r.subBoards == Place(s.subBoards, m, s.turn)
    requires r.macroBoard == SendTo(MarkWin(s, m), CellIndex(m))
    requires r.round == if s.turn == X then s.round + 1 else s.round
    requires r.winner == if r.round >= 9 && exists w | 0 <= w < 8 :: MacroLine(r.macroBoard, Wins[w], s.turn)
                         then s.turn else s.winner
    requires r.turn == Flip(s.turn)
    requires r.subGamesWinnableBy == s.subGamesWinnableBy && r.winsMe == s.winsMe && r.winsOpp == s.winsOpp
    requires r.player == s.player && r.opponent == s.opponent && r.timePerMove == s.timePerMove
    ensures r == Next(s, m)
  {
  }

  /** The first part of DoMove: the mark is placed, and the macro board records the mover
      when that won the sub-board. */
  method PlaceMark(state: State, m: Move) returns (result: State)
    requires OnGrid(m)
    ensures result == state.(subBoards := Place(state.subBoards, m, state.turn), macroBoard := MarkWin(state, m))
  {
    result := state;
    var macroMove := m.x / 3 + 3 * (m.y / 3);
    var subMove := m.x % 3 + (m.y % 3) * 3;
    var player := state.turn;
    assert macroMove == MacroIndex(m) && subMove == CellIndex(m);

    result := result.(subBoards := result.subBoards[macroMove := result.subBoards[macroMove][subMove := player]]);
    if TTT.GetWinner(result.subBoards[macroMove]) == player {
      result := result.(macroBoard := result.macroBoard[macroMove := player]);
    }
  }

  /** The legal moves inside sub-board `mb` among its first `n` cells, in cell order. */
  function CellMoves(s: State, mb: Cell, n: nat): (r: seq<Move>)
    requires n <= 9
    ensures forall k | 0 <= k < |r| ::
      OnGrid(r[k]) && MacroIndex(r[k]) == mb && CellIndex(r[k]) < n && s.subBoards[mb][CellIndex(r[k])] == None
    ensures forall md | 0 <= md < n && s.subBoards[mb][md] == None :: MoveOf(mb, md) in r
    ensures forall j, k | 0 <= j < k < |r| :: CellIndex(r[j]) < CellIndex(r[k])
  {
    if n == 0 then []
    else CellMoves(s, mb, n - 1) + (if s.subBoards[mb][n - 1] == None then [MoveOf(mb, n - 1)] else [])
  }

  /** Where a move stands in the listing order: sub-board first, then cell. */
  function Rank(m: Move): int {
    9 * MacroIndex(m) + CellIndex(m)
  }

  /** The empty cells of the Active sub-boards among the first `n`, in listing order. */
  function BoardMoves(s: State, n: nat): seq<Move>
    requires n <= 9
  {
    if n == 0 then []
    else BoardMoves(s, n - 1) + (if s.macroBoard[n - 1] == Active then CellMoves(s, n - 1, 9) else [])
  }

  /** Every move listed is an empty cell of an Active sub-board among the first `n`. */
  lemma {:induction false} BoardMovesAreLegal(s: State, n: nat)
    requires n <= 9
    ensures forall k | 0 <= k < |BoardMoves(s, n)| :: var m := BoardMoves(s, n)[k];
      OnGrid(m) && MacroIndex(m) < n && s.macroBoard[MacroIndex(m)] == Active
      && s.subBoards[MacroIndex(m)][CellIndex(m)] == None
  {
    if n > 0 {
      BoardMovesAreLegal(s, n - 1);
      var prev := BoardMoves(s, n - 1);
      var here := if s.macroBoard[n - 1] == Active then CellMoves(s, n - 1, 9) else [];
      assert BoardMoves(s, n) == prev + here;
      forall k | 0 <= k < |prev + here|
        ensures (prev + here)[k] == if k < |prev| then prev[k] else here[k - |prev|]
      {
      }
    }
  }

  /** Every empty cell of an Active sub-board among the first `n` is listed. */
  lemma {:induction false} BoardMovesAreAll(s: State, n: nat, mb: Cell, md: Cell)
    requires n <= 9 && mb < n
    requires s.macroBoard[mb] == Active && s.subBoards[mb][md] == None
    ensures MoveOf(mb, md) in BoardMoves(s, n)
  {
    var prev := BoardMoves(s, n - 1);
    if mb < n - 1 {
      BoardMovesAreAll(s, n - 1, mb, md);
      var here := if s.macroBoard[n - 1] == Active then CellMoves(s, n - 1, 9) else [];
      assert BoardMoves(s, n) == prev + here;
    } else {
      var here := CellMoves(s, mb, 9);
      assert MoveOf(mb, md) in here;
      assert BoardMoves(s, n) == prev + here;
    }
  }

  /** The listing is strictly increasing in rank. */
  lemma {:induction false} BoardMovesAreRanked(s: State, n: nat)
    requires n <= 9
    ensures forall j, k | 0 <= j < k < |BoardMoves(s, n)| :: Rank(BoardMoves(s, n)[j]) < Rank(BoardMoves(s, n)[k])
  {
    if n > 0 {
      BoardMovesAreRanked(s, n - 1);
      BoardMovesAreLegal(s, n - 1);
      var prev := BoardMoves(s, n - 1);
      var here := if s.macroBoard[n - 1] == Active then CellMoves(s, n - 1, 9) else [];
      assert forall j, k | 0 <= j < |prev| && 0 <= k < |here| :: Rank(prev[j]) < Rank(here[k]);
      RankedConcat(prev, here);
    }
  }

  /** Two lists in listing order, the first wholly before the second, concatenate into one. */
  lemma RankedConcat(xs: seq<Move>, ys: seq<Move>)
    requires forall j, k | 0 <= j < k < |xs| :: Rank(xs[j]) < Rank(xs[k])
    requires forall j, k | 0 <= j < k < |ys| :: Rank(ys[j]) < Rank(ys[k])
    requires forall j, k | 0 <= j < |xs| && 0 <= k < |ys| :: Rank(xs[j]) < Rank(ys[k])
    ensures forall j, k | 0 <= j < k < |xs + ys| :: Rank((xs + ys)[j]) < Rank((xs + ys)[k])
  {
    forall j, k | 0 <= j < k < |xs + ys|
      ensures Rank((xs + ys)[j]) < Rank((xs + ys)[k])
    {
      if k < |xs| {
        assert (xs + ys)[j] == xs[j] && (xs + ys)[k] == xs[k];
      } else if j < |xs| {
        assert (xs + ys)[j] == xs[j] && (xs + ys)[k] == ys[k - |xs|];
      } else {
        assert (xs + ys)[j] == ys[j - |xs|] && (xs + ys)[k] == ys[k - |xs|];
      }
    }
  }

  /** The legal moves: none once the game has a winner, otherwise every empty cell of
      every Active sub-board, sub-boards in index order and cells in index order. */
  function LegalMoves(s: State): (r: seq<Move>)
    ensures forall m :: m in r <==>
      s.winner == None && OnGrid(m) && s.macroBoard[MacroIndex(m)] == Active && s.subBoards[MacroIndex(m)][CellIndex(m)] == None
    ensures forall j, k | 0 <= j < k < |r| :: Rank(r[j]) < Rank(r[k])
  {
    var r := if s.winner != None then [] else BoardMoves(s, 9);
    BoardMovesAreLegal(s, 9);
    BoardMovesAreRanked(s, 9);
    forall m | s.winner == None && OnGrid(m) && s.macroBoard[MacroIndex(m)] == Active && s.subBoards[MacroIndex(m)][CellIndex(m)] == None
      ensures m in r
    {
      CoordinatesRoundTrip(m);
      BoardMovesAreAll(s, 9, MacroIndex(m), CellIndex(m));
    }
    r
  }

  method GetMoves(state: State) returns (moves: seq<Move>)
    ensures moves == LegalMoves(state)
  {
    moves := [];
    if state.winner != None {
      return;
    }
    var mb := 0;
    while mb < 9
      invariant 0 <= mb <= 9
      invariant moves == BoardMoves(state, mb)
    {
      if state.macroBoard[mb] != Active {
        assert BoardMoves(state, mb + 1) == BoardMoves(state, mb) + [];
        mb := mb + 1;
        continue;
      }
      moves := AddCellMoves(state, mb, moves);
      assert BoardMoves(state, mb + 1) == BoardMoves(state, mb) + CellMoves(state, mb, 9);
      mb := mb + 1;
    }
  }

  /** The inner loop of GetMoves: the empty cells of sub-board `mb` appended in cell order. */
  method AddCellMoves(state: State, mb: Cell, prefix: seq<Move>) returns (moves: seq<Move>)
    ensures moves == prefix + CellMoves(state, mb, 9)
  {
    moves := prefix;
    var deltaMx := (mb % 3) * 3;
    var deltaMy := mb / 3 * 3;
    var md := 0;
    while md < 9
      invariant 0 <= md <= 9
      invariant moves == prefix + CellMoves(state, mb, md)
    {
      ghost var here := if state.subBoards[mb][md] == None then [MoveOf(mb, md)] else [];
      assert CellMoves(state, mb, md + 1) == CellMoves(state, mb, md) + here;
      assert prefix + CellMoves(state, mb, md + 1) == prefix + CellMoves(state, mb, md) + here;
      if state.subBoards[mb][md] == None {
        assert Move(deltaMx + md % 3, deltaMy + md / 3) == MoveOf(mb, md);
        moves := moves + [Move(deltaMx + md % 3, deltaMy + md / 3)];
      }
      md := md + 1;
    }
  }

  /** A move writes the mover's mark into its cell, so a real player's move is no longer
      legal in the state it produces. */
  lemma PlayedMoveIsNoLongerLegal(s: State, m: Move)
    requires OnGrid(m) && s.turn in {X, O}
    ensures m !in LegalMoves(Next(s, m))
  {
  }

  /** The sub-board a move lands in shows the mover on the macro board exactly when the
      move completes one of the mover's lines there, or it already showed the mover. */
  lemma {:induction false} MacroMarkFollowsSubWinner(s: State, m: Move)
    requires OnGrid(m) && s.turn in {X, O}
    ensures var r := Next(s, m);
      (r.macroBoard[MacroIndex(m)] == s.turn && s.macroBoard[MacroIndex(m)] != s.turn)
      ==> TTT.GetWinner(r.subBoards[MacroIndex(m)]) == s.turn
    ensures TTT.GetWinner(Next(s, m).subBoards[MacroIndex(m)]) == s.turn ==> Next(s, m).macroBoard[MacroIndex(m)] == s.turn
  {
    var mm := MacroIndex(m);
    var sub := Place(s.subBoards, m, s.turn);
    var marked := if TTT.GetWinner(sub[mm]) == s.turn then s.macroBoard[mm := s.turn] else s.macroBoard;
    assert Next(s, m).macroBoard == SendTo(marked, CellIndex(m));
  }

  /** The sending rule in terms of the state before the move: if the destination shows a
      winner, every None entry becomes Active; otherwise the destination becomes Active.
      Either way an entry other than the played sub-board that was Active stays Active. */
  lemma {:induction false} SendToRule(s: State, m: Move)
    requires OnGrid(m)
    ensures var r := Next(s, m);
      var marked := if TTT.GetWinner(r.subBoards[MacroIndex(m)]) == s.turn then s.macroBoard[MacroIndex(m) := s.turn] else s.macroBoard;
      && (marked[CellIndex(m)] in {X, O} ==> forall i | 0 <= i < 9 :: r.macroBoard[i] == (if marked[i] == None then Active else marked[i]))
      && (marked[CellIndex(m)] !in {X, O} ==>
            r.macroBoard[CellIndex(m)] == Active && forall i | 0 <= i < 9 && i != CellIndex(m) :: r.macroBoard[i] == marked[i])
      && (forall i | 0 <= i < 9 && i != MacroIndex(m) && s.macroBoard[i] == Active :: r.macroBoard[i] == Active)
  {
    var mm := MacroIndex(m);
    var sub := Place(s.subBoards, m, s.turn);
    assert Next(s, m).subBoards[mm] == sub[mm];
  }
}
