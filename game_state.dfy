/** The game state of the newer generation (UTTTGame.h's `State`, read under UTTT.h's
    name by UTTT.cpp, UTTTAI.cpp and UTTTBot.cpp) and the pre-processed assessment
    that the move-selection stages read (UTTTAI.h's `AssessedState`). */
module GameState {
  import opened Common

  /** Nine integers, one per sub-board. */
  type PerBoard = s: seq<int> | |s| == 9 witness [0, 0, 0, 0, 0, 0, 0, 0, 0]

  /** Eight integers, one per winning line. */
  type PerLine = s: seq<int> | |s| == 8 witness [0, 0, 0, 0, 0, 0, 0, 0]

  datatype State = State(
    subBoards: Grid,
    macroBoard: Board,
    subGamesWinnableBy: Board,
    winsMe: int,
    winsOpp: int,
    turn: Player,
    player: Player,
    opponent: Player,
    round: int,
    winner: Player,
    timePerMove: int)

  /** A freshly constructed state: every macro entry Active, O to move in round 1, no
      winner and eight potential wins per side. The brace initialiser of
      `subGamesWinnableBy` sets only its first entry to Both; the other eight are
      value-initialised to the enumerator 0, which is O. */
  function DefaultState(): (s: State)
    ensures forall i | 0 <= i < 9 :: s.macroBoard[i] == Active
    ensures s.subGamesWinnableBy[0] == Both && forall i | 1 <= i < 9 :: s.subGamesWinnableBy[i] == O
    ensures s.turn == O && s.round == 1 && s.winner == None && s.winsMe == 8 && s.winsOpp == 8
  {
    State(
      seq(9, _ => EmptyBoard()),
      [Active, Active, Active, Active, Active, Active, Active, Active, Active],
      [Both, O, O, O, O, O, O, O, O],
      8, 8, O, None, None, 1, None, 0)
  }

  datatype AssessedState = AssessedState(
    state: State,
    potentialSubBoardWinners: Board,
    minMovesToPartialWins: PerBoard,
    minMovesToPartialLosses: PerBoard,
    relevantMacroIndicesOffensive: seq<int>,
    relevantMacroIndicesDefensive: seq<int>,
    macroFieldWorthsOffensive: PerBoard,
    macroFieldWorthsDefensive: PerBoard,
    minMovesToWin: PerLine,
    minMovesToLoose: PerLine,
    maxMovesRemaining: int)
}
