/** The newer generation's protocol handling (UTTTBot.cpp): the `settings` and
    `update game` lines of the engine turned into the bot's fields and its game state.
    The field line lists the 81 cells of the composite grid row by row, and the decoder
    files each one under its sub-board and cell; after the field the winnability of every
    sub-board and both sides' counts of open macro lines are recomputed. */
module UTTTBot {
  import opened Common
  import opened GameState
  import TTT
  import UTTTGame
  import opened Protocol

  // ---------------------------------------------------------------------------------
  // Tokens

  /** A cell token of the field line. */
  function FieldToken(t: string): (p: Player)
    ensures p == O <==> t == "0"
    ensures p == X <==> t == "1"
    ensures p == None <==> t != "0" && t != "1"
  {
    if t == "0" then O else if t == "1" then X else None
  }

  /** A sub-board token of the macroboard line. */
  function MacroToken(t: string): (p: Player)
    ensures p == Active <==> t == "-1"
    ensures p == O <==> t == "0"
    ensures p == X <==> t == "1"
    ensures p == None <==> t != "-1" && t != "0" && t != "1"
  {
    if t == "-1" then Active else if t == "0" then O else if t == "1" then X else None
  }

  // ---------------------------------------------------------------------------------
  // The field line

  /** The position in the field line of cell `md` of sub-board `mb`: the row-major index
      of the grid cell a move there plays. */
  function FieldIndex(mb: Cell, md: Cell): int {
    var m := MoveOf(mb, md);
    9 * m.y + m.x
  }

  /** The token at row `r`, column `c` of the field line is filed under the sub-board and
      cell a move to column `c`, row `r` plays, and under no other. */
  lemma FieldIndexOf(mb: Cell, md: Cell, r: int, c: int)
    requires 0 <= r < 9 && 0 <= c < 9
    ensures FieldIndex(mb, md) == 9 * r + c <==> mb == MacroIndex(Move(c, r)) && md == CellIndex(Move(c, r))
  {
    var m := MoveOf(mb, md);
    if FieldIndex(mb, md) == 9 * r + c {
      RowMajorUnique(m.y, m.x, r, c);
      assert m == Move(c, r);
    }
    if mb == MacroIndex(Move(c, r)) && md == CellIndex(Move(c, r)) {
      CoordinatesRoundTrip(Move(c, r));
    }
  }

  /** Row and column are determined by the row-major position. */
  lemma RowMajorUnique(y: int, x: int, r: int, c: int)
    requires 0 <= x < 9 && 0 <= c < 9 && 9 * y + x == 9 * r + c
    ensures y == r && x == c
  {
  }

  /** Every cell of every sub-board has its own position in the field line. */
  lemma FieldIndexIsBijection(mb: Cell, md: Cell, mb': Cell, md': Cell)
    ensures 0 <= FieldIndex(mb, md) < 81
    ensures FieldIndex(mb, md) == FieldIndex(mb', md') ==> mb == mb' && md == md'
  {
    var m := MoveOf(mb, md);
    FieldIndexOf(mb', md', m.y, m.x);
  }

  /** The sub-boards after the first `n` tokens of the field line have been filed, the
      rest as in `g`. */
  function FieldUpTo(g: Grid, fields: seq<string>, n: int): Grid
    requires |fields| >= 81
  {
    seq(9, mb requires 0 <= mb < 9 =>
      var b: Board := seq(9, md requires 0 <= md < 9 =>
        if FieldIndex(mb, md) < n then FieldToken(fields[FieldIndex(mb, md)]) else g[mb][md]);
      b)
  }

  /** The sub-boards a field line describes. */
  function DecodeField(fields: seq<string>): Grid
    requires |fields| >= 81
  {
    FieldUpTo(seq(9, _ => EmptyBoard()), fields, 81)
  }

  /** The decoded grid holds, at the sub-board and cell a move plays, the token at the
      move's row and column. */
  lemma DecodeFieldAgreesWithMoves(fields: seq<string>, m: Move)
    requires |fields| >= 81 && OnGrid(m)
    ensures DecodeField(fields)[MacroIndex(m)][CellIndex(m)] == FieldToken(fields[9 * m.y + m.x])
  {
    FieldIndexOf(MacroIndex(m), CellIndex(m), m.y, m.x);
  }

  /** Filing token 9*r + c writes one cell and leaves the others. */
  lemma FieldStep(g: Grid, fields: seq<string>, r: int, c: int)
    requires |fields| >= 81 && 0 <= r < 9 && 0 <= c < 9
    ensures var mb, md := MacroIndex(Move(c, r)), CellIndex(Move(c, r));
      var before := FieldUpTo(g, fields, 9 * r + c);
      FieldUpTo(g, fields, 9 * r + c + 1) == before[mb := before[mb][md := FieldToken(fields[9 * r + c])]]
  {
    var mb, md := MacroIndex(Move(c, r)), CellIndex(Move(c, r));
    var before := FieldUpTo(g, fields, 9 * r + c);
    var after := FieldUpTo(g, fields, 9 * r + c + 1);
    var expected := before[mb := before[mb][md := FieldToken(fields[9 * r + c])]];
    forall i | 0 <= i < 9
      ensures after[i] == expected[i]
    {
      forall j | 0 <= j < 9
        ensures after[i][j] == expected[i][j]
      {
        FieldIndexOf(i, j, r, c);
      }
    }
  }

  // ---------------------------------------------------------------------------------
  // The macroboard line

  /** The macro board after its first `n` tokens. */
  function MacroUpTo(macro: Board, fields: seq<string>, n: int): Board
    requires |fields| >= 9
  {
    seq(9, i requires 0 <= i < 9 => if i < n then MacroToken(fields[i]) else macro[i])
  }

  // ---------------------------------------------------------------------------------
  // Winnability and open macro lines

  /** The winnability of sub-board `i` after a field line: the stored macro entry when it
      names a winner, otherwise the winnability of the sub-board itself. */
  function WinnabilityOf(macro: Board, g: Grid, i: Cell): Player {
    if macro[i] == X || macro[i] == O then macro[i] else TTT.Winnability(g[i])
  }

  /** The winnabilities with the first `n` recomputed, the rest as in `swb`. */
  function WinnableUpTo(swb: Board, macro: Board, g: Grid, n: int): Board {
    seq(9, i requires 0 <= i < 9 => if i < n then WinnabilityOf(macro, g, i) else swb[i])
  }

  /** Every sub-board on macro line `l` can still be won by `p`. */
  predicate OpenFor(swb: Board, l: Line, p: Player) {
    (swb[l.a] == p || swb[l.a] == Both) && (swb[l.b] == p || swb[l.b] == Both) && (swb[l.c] == p || swb[l.c] == Both)
  }

  /** How many of the first `n` macro lines are open for `p`. */
  function OpenLines(swb: Board, p: Player, n: nat): (k: nat)
    requires n <= 8
    ensures k <= n
  {
    if n == 0 then 0 else OpenLines(swb, p, n - 1) + (if OpenFor(swb, Wins[n - 1], p) then 1 else 0)
  }

  /** The count credited to the bot: the open lines of the side it plays. */
  function WinsMe(swb: Board, player: Player, n: nat): (k: int)
    requires n <= 8
    ensures 0 <= k <= n
  {
    (if player == X then OpenLines(swb, X, n) else 0) + (if player == O then OpenLines(swb, O, n) else 0)
  }

  /** The count credited to the opponent: the open lines of every side the bot does not
      play. With the bot's own count it makes the open lines of X and of O together, so
      the two add up to at most 16. */
  function WinsOpp(swb: Board, player: Player, n: nat): (k: int)
    requires n <= 8
    ensures 0 <= k && WinsMe(swb, player, n) + k == OpenLines(swb, X, n) + OpenLines(swb, O, n) <= 2 * n
  {
    (if player == X then 0 else OpenLines(swb, X, n)) + (if player == O then 0 else OpenLines(swb, O, n))
  }

  /** Every line through a sub-board that `p` can no longer win is closed to `p`. */
  lemma {:induction false} ClosedBoardBelow(swb: Board, p: Player, i: Cell, n: nat)
    requires n <= 8 && swb[i] != p && swb[i] != Both
    ensures OpenLines(swb, p, n) + UTTTGame.ThroughBelow(i, n) <= n
  {
    if n > 0 {
      ClosedBoardBelow(swb, p, i, n - 1);
    }
  }

  /** A sub-board `p` can no longer win leaves `p` at most the 8 lines less those
      through it. */
  lemma WonBoardClosesLines(swb: Board, p: Player, i: Cell)
    requires swb[i] != p && swb[i] != Both
    ensures OpenLines(swb, p, 8) <= 8 - LinesThrough(i)
  {
    ClosedBoardBelow(swb, p, i, 8);
    UTTTGame.ThroughAllLines(i);
  }

  /** With every sub-board winnable by both, all lines are open for both. */
  lemma {:induction false} AllLinesOpen(swb: Board, p: Player, n: nat)
    requires n <= 8 && forall i | 0 <= i < 9 :: swb[i] == Both
    ensures OpenLines(swb, p, n) == n
  {
    if n > 0 {
      AllLinesOpen(swb, p, n - 1);
    }
  }

  /** The winnabilities after a field line. */
  function WinnableAfter(macro: Board, g: Grid): Board {
    WinnableUpTo(macro, macro, g, 9)
  }

  /** The state a field line of at least 81 tokens leaves: the decoded sub-boards, their
      winnabilities and both counts of open macro lines. */
  function AfterField(s: State, fields: seq<string>): State
    requires |fields| >= 81
  {
    var g := DecodeField(fields);
    var swb := WinnableAfter(s.macroBoard, g);
    s.(subBoards := g, subGamesWinnableBy := swb, winsMe := WinsMe(swb, s.player, 8), winsOpp := WinsOpp(swb, s.player, 8))
  }

  /** An empty field with no sub-board won on the macro board leaves every sub-board
      winnable by both and eight open lines per side: the counts a fresh state starts
      with. */
  lemma EmptyFieldCountsEight(s: State, fields: seq<string>)
    requires |fields| >= 81 && forall k | 0 <= k < 81 :: fields[k] != "0" && fields[k] != "1"
    requires forall i | 0 <= i < 9 :: s.macroBoard[i] != X && s.macroBoard[i] != O
    requires s.player == X || s.player == O
    ensures forall i | 0 <= i < 9 :: AfterField(s, fields).subGamesWinnableBy[i] == Both
    ensures AfterField(s, fields).winsMe == 8 == DefaultState().winsMe
    ensures AfterField(s, fields).winsOpp == 8 == DefaultState().winsOpp
  {
    var swb := WinnableAfter(s.macroBoard, DecodeField(fields));
    EmptyFieldIsOpen(s.macroBoard, fields);
    AllLinesOpen(swb, X, 8);
    AllLinesOpen(swb, O, 8);
  }

  /** An empty field leaves every sub-board that is not won on the macro board winnable
      by both. */
  lemma EmptyFieldIsOpen(macro: Board, fields: seq<string>)
    requires |fields| >= 81 && forall k | 0 <= k < 81 :: fields[k] != "0" && fields[k] != "1"
    requires forall i | 0 <= i < 9 :: macro[i] != X && macro[i] != O
    ensures forall i | 0 <= i < 9 :: WinnableAfter(macro, DecodeField(fields))[i] == Both
  {
    var g := DecodeField(fields);
    forall i | 0 <= i < 9
      ensures g[i] == EmptyBoard()
    {
      forall j | 0 <= j < 9
        ensures g[i][j] == None
      {
        FieldIndexIsBijection(i, j, i, j);
      }
    }
    TTT.EmptyBoardIsWinnableByBoth();
  }

  /** The macro board a macroboard line of at least 9 tokens describes. */
  function DecodeMacro(fields: seq<string>): Board
    requires |fields| >= 9
  {
    MacroUpTo(EmptyBoard(), fields, 9)
  }

  // ---------------------------------------------------------------------------------
  // Bot id

  /** The side the bot plays for id `id`: O for 0, X for any other id. */
  function PlayerOf(id: int): (p: Player)
    ensures p == O <==> id == 0
    ensures p == X <==> id != 0
  {
    if id == 0 then O else X
  }

  /** The side the opponent plays. */
  function OpponentOf(player: Player): Player {
    if player == X then O else X
  }

  /** The two sides are X and O, one each, whatever the id. */
  lemma SidesDiffer(id: int)
    ensures {PlayerOf(id), OpponentOf(PlayerOf(id))} == {X, O}
    ensures OpponentOf(PlayerOf(id)) == TTT.Opponent(PlayerOf(id))
  {
  }

  // ---------------------------------------------------------------------------------
  // The loops of update

  /** The field loop: every row, every column, the token filed under its sub-board and cell. */
  method ReadField(s: State, fields: seq<string>) returns (r: State)
    requires |fields| >= 81
    ensures r == s.(subBoards := DecodeField(fields))
  {
    r := s;
    FieldUpToNone(s.subBoards, fields);
    for row := 0 to 9
      invariant r == s.(subBoards := FieldUpTo(s.subBoards, fields, 9 * row))
    {
      for c := 0 to 9
        invariant r == s.(subBoards := FieldUpTo(s.subBoards, fields, 9 * row + c))
      {
        var macroBoard := c / 3 + 3 * (row / 3);
        var subMove := c % 3 + (row % 3) * 3;
        assert macroBoard == MacroIndex(Move(c, row)) && subMove == CellIndex(Move(c, row));
        var p := FieldToken(fields[row * 9 + c]);
        FieldStep(s.subBoards, fields, row, c);
        r := r.(subBoards := r.subBoards[macroBoard := r.subBoards[macroBoard][subMove := p]]);
      }
    }
    FieldUpToAll(s.subBoards, fields);
  }

  /** Once all 81 tokens are filed, nothing of the old sub-boards is left. */
  lemma FieldUpToAll(g: Grid, fields: seq<string>)
    requires |fields| >= 81
    ensures FieldUpTo(g, fields, 81) == DecodeField(fields)
  {
    forall i | 0 <= i < 9
      ensures FieldUpTo(g, fields, 81)[i] == DecodeField(fields)[i]
    {
      forall j | 0 <= j < 9
        ensures FieldUpTo(g, fields, 81)[i][j] == DecodeField(fields)[i][j]
      {
        FieldIndexIsBijection(i, j, i, j);
      }
    }
  }

  /** Before any token is filed the sub-boards are as they were. */
  lemma FieldUpToNone(g: Grid, fields: seq<string>)
    requires |fields| >= 81
    ensures FieldUpTo(g, fields, 0) == g
  {
    forall i | 0 <= i < 9
      ensures FieldUpTo(g, fields, 0)[i] == g[i]
    {
      forall j | 0 <= j < 9
        ensures FieldUpTo(g, fields, 0)[i][j] == g[i][j]
      {
        FieldIndexIsBijection(i, j, i, j);
      }
    }
  }

  /** The winnability loop. */
  method RecomputeWinnability(s: State) returns (r: State)
    ensures r == s.(subGamesWinnableBy := WinnableAfter(s.macroBoard, s.subBoards))
  {
    r := s;
    for i := 0 to 9
      invariant r == s.(subGamesWinnableBy := WinnableUpTo(s.subGamesWinnableBy, s.macroBoard, s.subBoards, i))
    {
      var w;
      if r.macroBoard[i] == X || r.macroBoard[i] == O {
        w := r.macroBoard[i];
      } else {
        w := TTT.IsWinnableForPlayer(r.subBoards[i]);
      }
      r := r.(subGamesWinnableBy := r.subGamesWinnableBy[i := w]);
      assert r.subGamesWinnableBy == WinnableUpTo(s.subGamesWinnableBy, s.macroBoard, s.subBoards, i + 1);
    }
    assert r.subGamesWinnableBy == WinnableAfter(s.macroBoard, s.subBoards);
  }

  /** The counting loop: both counts from zero, one line at a time; a line open for X
      counts for the bot when it plays X and for the opponent otherwise, and likewise
      for O. */
  method CountWins(s: State) returns (r: State)
    ensures r == s.(winsMe := WinsMe(s.subGamesWinnableBy, s.player, 8), winsOpp := WinsOpp(s.subGamesWinnableBy, s.player, 8))
  {
    var swb := s.subGamesWinnableBy;
    r := s.(winsMe := 0, winsOpp := 0);
    for w := 0 to 8
      invariant r == s.(winsMe := WinsMe(swb, s.player, w), winsOpp := WinsOpp(swb, s.player, w))
    {
      var win := Wins[w];
      if (swb[win.a] == X || swb[win.a] == Both) && (swb[win.b] == X || swb[win.b] == Both)
         && (swb[win.c] == X || swb[win.c] == Both) {
        if r.player == X { r := r.(winsMe := r.winsMe + 1); } else { r := r.(winsOpp := r.winsOpp + 1); }
      }
      if (swb[win.a] == O || swb[win.a] == Both) && (swb[win.b] == O || swb[win.b] == Both)
         && (swb[win.c] == O || swb[win.c] == Both) {
        if r.player == O { r := r.(winsMe := r.winsMe + 1); } else { r := r.(winsOpp := r.winsOpp + 1); }
      }
    }
  }

  /** The macroboard loop. */
  method ReadMacroboard(s: State, fields: seq<string>) returns (r: State)
    requires |fields| >= 9
    ensures r == s.(macroBoard := DecodeMacro(fields))
  {
    r := s;
    for i := 0 to 9
      invariant r == s.(macroBoard := MacroUpTo(s.macroBoard, fields, i))
    {
      r := r.(macroBoard := r.macroBoard[i := MacroToken(fields[i])]);
      assert r.macroBoard == MacroUpTo(s.macroBoard, fields, i + 1);
    }
    assert r.macroBoard == DecodeMacro(fields);
  }

  // ---------------------------------------------------------------------------------
  // The bot

  /** The bot's settings and its picture of the game. The numeric settings start at 0
      here; the class leaves them uninitialised. */
  class UTTTBot {
    var timebank: int
    var timePerMove: int
    var playerNames: seq<string>
    var yourBot: string
    var yourBotId: int
    var round: int
    var state: State

    constructor ()
      ensures state == DefaultState() && playerNames == ["", ""] && yourBot == ""
      ensures timebank == 0 && timePerMove == 0 && yourBotId == 0 && round == 0
    {
      timebank := 0;
      timePerMove := 0;
      playerNames := ["", ""];
      yourBot := "";
      yourBotId := 0;
      round := 0;
      state := DefaultState();
    }

    /** `update game <key> <value>`. `round` sets the round in both places; `field`
        decodes the 81 cells and recomputes the winnabilities and the counts; `macroboard`
        decodes the nine sub-board statuses; any other key is ignored. A round that does
        not parse as an integer (where `std::stoi` throws) changes nothing and is
        reported as not ok. */
    method Update(key: string, value: string) returns (ok: bool)
      requires key == "field" ==> |Pieces(value, ',')| >= 81
      requires key == "macroboard" ==> |Pieces(value, ',')| >= 9
      modifies this
      ensures ok <==> key != "round" || Stoi(value).Some?
      ensures timebank == old(timebank) && timePerMove == old(timePerMove) && playerNames == old(playerNames)
      ensures yourBot == old(yourBot) && yourBotId == old(yourBotId)
      ensures round == if key == "round" && ok then Stoi(value).value else old(round)
      ensures state ==
        if key == "round" && ok then old(state).(round := round)
        else if key == "field" then AfterField(old(state), Pieces(value, ','))
        else if key == "macroboard" then old(state).(macroBoard := DecodeMacro(Pieces(value, ',')))
        else old(state)
    {
      ok := true;
      if key == "round" {
        var n := Stoi(value);
        if n.Nothing? {
          return false;
        }
        round := n.value;
        state := state.(round := round);
      } else if key == "field" {
        var fields := Split(value, ',');
        var s := ReadField(state, fields);
        s := RecomputeWinnability(s);
        s := CountWins(s);
        state := s;
      } else if key == "macroboard" {
        var fields := Split(value, ',');
        state := ReadMacroboard(state, fields);
      }
    }

    /** `settings <key> <value>`. The numbers are parsed with `std::stoi`; one that does
        not parse changes nothing and is reported as not ok. `time_per_move` is copied
        into the state, and `your_botid` fixes the sides: O for id 0, X otherwise. */
    method Setting(key: string, value: string) returns (ok: bool)
      requires key == "player_names" ==> |Pieces(value, ',')| >= 2
      modifies this
      ensures ok <==> (key != "timebank" && key != "time_per_move" && key != "your_botid") || Stoi(value).Some?
      ensures timebank == if key == "timebank" && ok then Stoi(value).value else old(timebank)
      ensures timePerMove == if key == "time_per_move" && ok then Stoi(value).value else old(timePerMove)
      ensures playerNames == if key == "player_names" then Pieces(value, ',')[..2] else old(playerNames)
      ensures yourBot == if key == "your_bot" then value else old(yourBot)
      ensures yourBotId == if key == "your_botid" && ok then Stoi(value).value else old(yourBotId)
      ensures round == old(round)
      ensures state ==
        if key == "time_per_move" && ok then old(state).(timePerMove := timePerMove)
        else if key == "your_botid" && ok then old(state).(player := PlayerOf(yourBotId), opponent := OpponentOf(PlayerOf(yourBotId)))
        else old(state)
    {
      ok := true;
      if key == "timebank" || key == "time_per_move" || key == "your_botid" {
        var n := Stoi(value);
        if n.Nothing? {
          return false;
        }
        if key == "timebank" {
          timebank := n.value;
        } else if key == "time_per_move" {
          timePerMove := n.value;
          state := state.(timePerMove := timePerMove);
        } else {
          yourBotId := n.value;
          var player := if yourBotId == 0 then O else X;
          state := state.(player := player);
          state := state.(opponent := if state.player == X then O else X);
        }
      } else if key == "player_names" {
        var names := Split(value, ',');
        playerNames := [names[0], names[1]];
      } else if key == "your_bot" {
        yourBot := value;
      }
    }
  }
}
