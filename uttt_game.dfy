/** The revised super-board rules (UTTTGame.cpp). The cell write, the macro-win mark,
    the round count, the winner check and the turn flip are UTTT.cpp's; what differs is
    the choice of the next Active sub-board, which also treats a full sub-board as
    finished and otherwise leaves exactly one entry Active, and the bookkeeping of which
    side can still win each sub-board and how many macro lines the opponent can still
    complete. Sub-board queries use TTTGame, whose members are TTT's. */
module UTTTGame {
  import opened Common
  import TTT
  import opened GameState
  import UTTT

  /** Every cell of the board is taken. */
  predicate Full(b: Board) {
    forall i | 0 <= i < 9 :: b[i] != None
  }

  /** Every Active entry of the macro board reset to None, the others unchanged. */
  function ClearActive(macro: Board): (r: Board)
    ensures forall i | 0 <= i < 9 :: r[i] == (if macro[i] == Active then None else macro[i])
  {
    seq(9, i requires 0 <= i < 9 => if macro[i] == Active then None else macro[i])
  }

  /** UTTTGame.cpp's rule for the sub-board the opponent is sent to. A destination that
      shows a winner or has no empty cell opens every None entry; any other destination
      becomes the one and only Active entry. */
  function SendTo(macro: Board, subBoards: Grid, dest: Cell): (r: Board)
    ensures (macro[dest] == X || macro[dest] == O || Full(subBoards[dest])) ==>
      forall i | 0 <= i < 9 :: r[i] == (if macro[i] == None then Active else macro[i])
    ensures !(macro[dest] == X || macro[dest] == O || Full(subBoards[dest])) ==>
      (forall i | 0 <= i < 9 :: r[i] == Active <==> i == dest)
      && forall i | 0 <= i < 9 && i != dest && macro[i] != Active :: r[i] == macro[i]
  {
    if macro[dest] == X || macro[dest] == O || None !in subBoards[dest] then UTTT.OpenUnfinished(macro)
    else ClearActive(macro)[dest := Active]
  }

  /** The activation step of UTTTGame.cpp, with its two in-place loops. */
  method ActivateNext(macro: Board, subBoards: Grid, dest: Cell) returns (r: Board)
    ensures r == SendTo(macro, subBoards, dest)
  {
    r := macro;
    if r[dest] == X || r[dest] == O || None !in subBoards[dest] {
      r := UTTT.OpenUnfinishedBoards(r);
    } else {
      var s := 0;
      while s < 9
        invariant 0 <= s <= 9
        invariant forall k | 0 <= k < 9 :: r[k] == (if k < s && macro[k] == Active then None else macro[k])
      {
        if r[s] == Active {
          r := r[s := None];
        }
        s := s + 1;
      }
      r := r[dest := Active];
    }
  }

  /** Sub-board `i` can still be won by `opp`, as far as the old classification knows. */
  predicate OpenFor(swb: Board, i: Cell, opp: Player) {
    swb[i] == opp || swb[i] == Both
  }

  /** The loop body's test for one line: it runs through `mm`, and its other two
      sub-boards are open for `opp`. The positions are tried in the order a, b, c. */
  predicate LineLost(swb: Board, l: Line, mm: Cell, opp: Player) {
    if l.a == mm then OpenFor(swb, l.b, opp) && OpenFor(swb, l.c, opp)
    else if l.b == mm then OpenFor(swb, l.a, opp) && OpenFor(swb, l.c, opp)
    else if l.c == mm then OpenFor(swb, l.b, opp) && OpenFor(swb, l.a, opp)
    else false
  }

  /** The same test stated without positions: the line passes through `mm` and each of
      its other cells is open for `opp`. */
  predicate ThroughAndOpen(swb: Board, l: Line, mm: Cell, opp: Player) {
    OnLine(l, mm) && forall i: Cell | OnLine(l, i) && i != mm :: OpenFor(swb, i, opp)
  }

  /** How many of the first `n` lines the opponent loses when sub-board `mm` is closed to it. */
  function LostBelow(swb: Board, mm: Cell, opp: Player, n: nat): (k: nat)
    requires n <= 8
    ensures k <= n
  {
    if n == 0 then 0
    else LostBelow(swb, mm, opp, n - 1) + (if LineLost(swb, Wins[n - 1], mm, opp) then 1 else 0)
  }

  /** How many of the first `n` lines pass through `mm`. */
  function ThroughBelow(mm: Cell, n: nat): nat
    requires n <= 8
  {
    if n == 0 then 0
    else ThroughBelow(mm, n - 1) + (if OnLine(Wins[n - 1], mm) then 1 else 0)
  }

  /** Only lines through `mm` can be lost, so at most as many as pass through it. */
  lemma {:induction false} LostBelowBound(swb: Board, mm: Cell, opp: Player, n: nat)
    requires n <= 8
    ensures LostBelow(swb, mm, opp, n) <= ThroughBelow(mm, n)
  {
    if n > 0 {
      LostBelowBound(swb, mm, opp, n - 1);
    }
  }

  lemma ThroughAllLines(mm: Cell)
    ensures ThroughBelow(mm, 8) == LinesThrough(mm)
  {
  }

  /** The positional test and the position-free one agree on every winning line. */
  lemma LineLostMeansThroughAndOpen(swb: Board, w: int, mm: Cell, opp: Player)
    requires 0 <= w < 8
    ensures LineLost(swb, Wins[w], mm, opp) <==> ThroughAndOpen(swb, Wins[w], mm, opp)
  {
  }

  /** The lost lines counted as a set: the lines through `mm` whose other two sub-boards
      were open for `opp`. */
  lemma {:induction false} LostBelowCountsLostLines(swb: Board, mm: Cell, opp: Player, n: nat)
    requires n <= 8
    ensures LostBelow(swb, mm, opp, n) == |set w | 0 <= w < n && ThroughAndOpen(swb, Wins[w], mm, opp)|
  {
    if n > 0 {
      LostBelowCountsLostLines(swb, mm, opp, n - 1);
      LineLostMeansThroughAndOpen(swb, n - 1, mm, opp);
      LostLinesGrow(swb, mm, opp, n);
    }
  }

  /** The lost lines below `n` are those below `n - 1`, plus line `n - 1` when it is lost. */
  lemma LostLinesGrow(swb: Board, mm: Cell, opp: Player, n: nat)
    requires 0 < n <= 8
    ensures var before := set w | 0 <= w < n - 1 && ThroughAndOpen(swb, Wins[w], mm, opp);
      var after := set w | 0 <= w < n && ThroughAndOpen(swb, Wins[w], mm, opp);
      |after| == |before| + (if ThroughAndOpen(swb, Wins[n - 1], mm, opp) then 1 else 0)
  {
    var before := set w | 0 <= w < n - 1 && ThroughAndOpen(swb, Wins[w], mm, opp);
    var after := set w | 0 <= w < n && ThroughAndOpen(swb, Wins[w], mm, opp);
    var here := if ThroughAndOpen(swb, Wins[n - 1], mm, opp) then {n - 1} else {};
    assert forall w :: w in after <==> w in before || w in here;
    assert after == before + here;
    assert n - 1 !in before;
  }

  /** The potential-win bookkeeping after a move in sub-board `mm`: when that sub-board was
      open for the opponent and its recomputed winnability differs, it takes the new value
      and the opponent loses the lines through it whose other two sub-boards were open
      for it; otherwise nothing changes. */
  function PotentialWins(s: State, subBoards: Grid, mm: Cell): (r: (Board, int))
    ensures forall i | 0 <= i < 9 && i != mm :: r.0[i] == s.subGamesWinnableBy[i]
    ensures r.0[mm] != s.subGamesWinnableBy[mm] <==>
      OpenFor(s.subGamesWinnableBy, mm, s.opponent) && TTT.Winnability(subBoards[mm]) != s.subGamesWinnableBy[mm]
    ensures r.0[mm] != s.subGamesWinnableBy[mm] ==> r.0[mm] == TTT.Winnability(subBoards[mm])
    ensures s.winsOpp - LinesThrough(mm) <= r.1 <= s.winsOpp
    ensures r.0 == s.subGamesWinnableBy ==> r.1 == s.winsOpp
    ensures r.0 != s.subGamesWinnableBy ==>
      r.1 == s.winsOpp - |set w | 0 <= w < 8 && ThroughAndOpen(s.subGamesWinnableBy, Wins[w], mm, s.opponent)|
  {
    var swb := s.subGamesWinnableBy;
    var potential := TTT.Winnability(subBoards[mm]);
    if OpenFor(swb, mm, s.opponent) && potential != swb[mm] then
      LostBelowBound(swb, mm, s.opponent, 8);
      ThroughAllLines(mm);
      LostBelowCountsLostLines(swb, mm, s.opponent, 8);
      (swb[mm := potential], s.winsOpp - LostBelow(swb, mm, s.opponent, 8))
    else (swb, s.winsOpp)
  }

  /** The bookkeeping step of UTTTGame.cpp, with its loop over the lines. */
  method UpdatePotentialWins(state: State, subBoards: Grid, macroMove: Cell) returns (swb: Board, winsOpp: int)
    ensures (swb, winsOpp) == PotentialWins(state, subBoards, macroMove)
  {
    swb := state.subGamesWinnableBy;
    winsOpp := state.winsOpp;
    var before := state.subGamesWinnableBy;
    var opp := state.opponent;
    if before[macroMove] == Both || before[macroMove] == opp {
      var potentialSubWinner := TTT.IsWinnableForPlayer(subBoards[macroMove]);
      if potentialSubWinner != swb[macroMove] {
        swb := swb[macroMove := potentialSubWinner];
        winsOpp := DropLostLines(before, macroMove, opp, winsOpp);
      }
    }
  }

  /** The loop of that step: one potential win fewer for each line lost through `macroMove`. */
  method DropLostLines(before: Board, macroMove: Cell, opp: Player, winsOpp0: int) returns (winsOpp: int)
    ensures winsOpp == winsOpp0 - LostBelow(before, macroMove, opp, 8)
  {
    winsOpp := winsOpp0;
    var w := 0;
    while w < 8
      invariant 0 <= w <= 8
      invariant winsOpp == winsOpp0 - LostBelow(before, macroMove, opp, w)
    {
      var win := Wins[w];
      assert LostBelow(before, macroMove, opp, w + 1)
        == LostBelow(before, macroMove, opp, w) + (if LineLost(before, win, macroMove, opp) then 1 else 0);
      if win.a == macroMove {
        if (before[win.b] == opp || before[win.b] == Both) && (before[win.c] == opp || before[win.c] == Both) {
          winsOpp := winsOpp - 1;
        }
      } else if win.b == macroMove {
        if (before[win.a] == opp || before[win.a] == Both) && (before[win.c] == opp || before[win.c] == Both) {
          winsOpp := winsOpp - 1;
        }
      } else if win.c == macroMove {
        if (before[win.b] == opp || before[win.b] == Both) && (before[win.a] == opp || before[win.a] == Both) {
          winsOpp := winsOpp - 1;
        }
      }
      w := w + 1;
    }
  }

  /** The state after the player to move plays `m`, by UTTTGame.cpp's rules. */
  function Next(s: State, m: Move): (r: State)
    requires OnGrid(m)
    ensures r.subBoards[MacroIndex(m)][CellIndex(m)] == s.turn
    ensures forall mb, md | 0 <= mb < 9 && 0 <= md < 9 && (mb != MacroIndex(m) || md != CellIndex(m)) ::
      r.subBoards[mb][md] == s.subBoards[mb][md]
    ensures r.round == (if s.turn == X then s.round + 1 else s.round)
    ensures r.turn != s.turn && r.turn in {X, O}
    ensures r.winner != s.winner ==> r.winner == s.turn && r.round >= 9 && exists w | 0 <= w < 8 :: UTTT.MacroLine(r.macroBoard, Wins[w], s.turn)
    ensures forall i | 0 <= i < 9 && i != MacroIndex(m) :: r.subGamesWinnableBy[i] == s.subGamesWinnableBy[i]
    ensures r.winsMe == s.winsMe && s.winsOpp - 4 <= r.winsOpp <= s.winsOpp
    ensures r.subGamesWinnableBy == s.subGamesWinnableBy ==> r.winsOpp == s.winsOpp
    ensures r.player == s.player && r.opponent == s.opponent && r.timePerMove == s.timePerMove
  {
    var mm := MacroIndex(m);
    var p := s.turn;
    var sub := UTTT.Place(s.subBoards, m, p);
    var macro := SendTo(UTTT.MarkWin(s, m), sub, CellIndex(m));
    var round := if p == X then s.round + 1 else s.round;
    var winner := if round >= 9 && exists w | 0 <= w < 8 :: UTTT.MacroLine(macro, Wins[w], p) then p else s.winner;
    var bookkept := PotentialWins(s, sub, mm);
    State(sub, macro, bookkept.0, s.winsMe, bookkept.1, UTTT.Flip(p), s.player, s.opponent, round, winner, s.timePerMove)
  }

  method DoMove(state: State, m: Move) returns (result: State)
    requires OnGrid(m)
    ensures result == Next(state, m)
  {
    var macroMove := m.x / 3 + 3 * (m.y / 3);
    var subMove := m.x % 3 + (m.y % 3) * 3;
    var player := state.turn;
    assert macroMove == MacroIndex(m) && subMove == CellIndex(m);

    // The mark and the sub-board win it may complete are placed exactly as in UTTT.cpp.
    result := UTTT.PlaceMark(state, m);

    var activated := ActivateNext(result.macroBoard, result.subBoards, subMove);
    result := result.(macroBoard := activated);

    if player == X {
      result := result.(round := result.round + 1);
    }

    if result.round >= 9 {
      var won := UTTT.HasMacroLine(result.macroBoard, player);
      if won {
        result := result.(winner := player);
      }
    }

    var swb, winsOpp := UpdatePotentialWins(state, result.subBoards, macroMove);
    result := result.(subGamesWinnableBy := swb, winsOpp := winsOpp);

    result := result.(turn := if state.turn == O then X else O);
  }

  /** UTTTGame.cpp lists moves exactly as UTTT.cpp does. */
  method GetMoves(state: State) returns (moves: seq<Move>)
    ensures moves == UTTT.LegalMoves(state)
    ensures forall m :: m in moves <==>
      state.winner == None && OnGrid(m) && state.macroBoard[MacroIndex(m)] == Active && state.subBoards[MacroIndex(m)][CellIndex(m)] == None
  {
    moves := UTTT.GetMoves(state);
  }

  /** After a move that does not open the board, the only Active sub-board is the one the
      move's cell names, so every legal move of the next state lies there. */
  lemma {:induction false} SentToOneBoard(s: State, m: Move, n: Move)
    requires OnGrid(m)
    requires var marked := UTTT.MarkWin(s, m);
      !(marked[CellIndex(m)] == X || marked[CellIndex(m)] == O || Full(Next(s, m).subBoards[CellIndex(m)]))
    requires n in UTTT.LegalMoves(Next(s, m))
    ensures MacroIndex(n) == CellIndex(m)
  {
  }
}
