/** The older generation's bot (utttbot.cpp): the `settings` and `update game` lines of the
    engine turned into the bot's fields and its game state, and the bot's own move choice,
    a deepening alpha-beta search scored +1/0/-1 with a random pick among the moves tied
    for the best first-pass rating. The field line lists the 81 cells row by row and is
    written straight into the 9x9 grid; the macroboard line lists the nine sub-board
    statuses row by row. */
module LegacyUTTTBot {
  import opened Common
  import opened LegacyUTTT
  import LegacyUTTTAI
  import opened Minimax
  import TreeSearch
  import UTTTAI
  import Newer = UTTTBot
  import opened Protocol

  // ---------------------------------------------------------------------------------
  // Tokens

  /** A cell token of the field line: "0" is X, "1" is O, anything else an empty cell. */
  function FieldToken(t: string): (p: Player)
    ensures p == X <==> t == "0"
    ensures p == O <==> t == "1"
    ensures p == None <==> t != "0" && t != "1"
  {
    if t == "0" then X else if t == "1" then O else None
  }

  /** A sub-board token of the macroboard line: "-1" is Active, "0" is X, "1" is O,
      anything else None. */
  function MacroToken(t: string): (p: Player)
    ensures p == Active <==> t == "-1"
    ensures p == X <==> t == "0"
    ensures p == O <==> t == "1"
    ensures p == None <==> t != "-1" && t != "0" && t != "1"
  {
    if t == "-1" then Active else if t == "0" then X else if t == "1" then O else None
  }

  /** X and O exchanged, everything else kept. */
  function Swap(p: Player): Player {
    if p == X then O else if p == O then X else p
  }

  /** The two generations read the same tokens with the sides exchanged: the older one
      takes "0" for X, the newer one for O. */
  lemma TokensSwapSides(t: string)
    ensures FieldToken(t) == Swap(Newer.FieldToken(t))
    ensures MacroToken(t) == Swap(Newer.MacroToken(t))
    ensures Swap(Swap(FieldToken(t))) == FieldToken(t)
  {
  }

  // ---------------------------------------------------------------------------------
  // The field line

  /** The grid after the first `n` tokens of a field line: token 9 * r + c goes to row r,
      column c, the rest of the grid as in `g`. */
  function FieldUpTo(g: Grid, fields: seq<string>, n: int): Grid
    requires n <= |fields|
  {
    seq(9, r requires 0 <= r < 9 => RowUpTo(g[r], fields, n, 9 * r))
  }

  /** Row `g` after the tokens before `n`, its cells being tokens `start` to `start + 8`. */
  function RowUpTo(row: Board, fields: seq<string>, n: int, start: int): Board
    requires n <= |fields| && 0 <= start
  {
    seq(9, c requires 0 <= c < 9 => CellUpTo(row[c], fields, n, start + c))
  }

  /** A cell after the tokens before `n`: token `k` when it has been read, else `p`. */
  function CellUpTo(p: Player, fields: seq<string>, n: int, k: int): Player
    requires n <= |fields| && 0 <= k
  {
    if k < n then FieldToken(fields[k]) else p
  }

  /** Before any token the grid is as it was. */
  lemma FieldUpToNone(g: Grid, fields: seq<string>)
    ensures FieldUpTo(g, fields, 0) == g
  {
    forall r | 0 <= r < 9
      ensures FieldUpTo(g, fields, 0)[r] == g[r]
    {
      forall c | 0 <= c < 9
        ensures FieldUpTo(g, fields, 0)[r][c] == g[r][c]
      {
      }
    }
  }

  /** Token 9 * r + c writes row r, column c and nothing else. */
  lemma FieldStep(g: Grid, fields: seq<string>, r: int, c: int, before: Grid)
    requires 0 <= r < 9 && 0 <= c < 9 && 9 * r + c < |fields|
    requires before == FieldUpTo(g, fields, 9 * r + c)
    ensures FieldUpTo(g, fields, 9 * r + c + 1) == before[r := before[r][c := FieldToken(fields[9 * r + c])]]
  {
    var after := FieldUpTo(g, fields, 9 * r + c + 1);
    var expected := before[r := before[r][c := FieldToken(fields[9 * r + c])]];
    forall i | 0 <= i < 9
      ensures after[i] == expected[i]
    {
      forall j | 0 <= j < 9
        ensures after[i][j] == expected[i][j]
      {
        if 9 * i + j == 9 * r + c {
          Newer.RowMajorUnique(i, j, r, c);
        }
      }
    }
  }

  /** A field line of 81 tokens replaces the whole grid: what the grid held before makes
      no difference, and the cell a move plays holds the token at the move's row and
      column. */
  lemma FullFieldReplacesGrid(g: Grid, g': Grid, fields: seq<string>, m: Move)
    requires |fields| == 81 && OnGrid(m)
    ensures FieldUpTo(g, fields, 81) == FieldUpTo(g', fields, 81)
    ensures FieldUpTo(g, fields, 81)[m.y][m.x] == FieldToken(fields[9 * m.y + m.x])
  {
    var a, b := FieldUpTo(g, fields, 81), FieldUpTo(g', fields, 81);
    forall r | 0 <= r < 9
      ensures a[r] == b[r]
    {
      forall c | 0 <= c < 9
        ensures a[r][c] == b[r][c]
      {
      }
    }
  }

  /** A shorter field line leaves every cell past its last token as it was. */
  lemma ShortFieldKeepsRest(g: Grid, fields: seq<string>, r: int, c: int)
    requires |fields| <= 81 && 0 <= r < 9 && 0 <= c < 9 && |fields| <= 9 * r + c
    ensures FieldUpTo(g, fields, |fields|)[r][c] == g[r][c]
  {
  }

  /** Both generations decode a full field line into the same position: the cell a move
      plays in the older grid holds, with the sides exchanged, what the newer decoder files
      under the move's sub-board and cell. */
  lemma FieldAgreesAcrossGenerations(g: Grid, fields: seq<string>, m: Move)
    requires |fields| == 81 && OnGrid(m)
    ensures FieldUpTo(g, fields, 81)[m.y][m.x] == Swap(Newer.DecodeField(fields)[MacroIndex(m)][CellIndex(m)])
  {
    FullFieldReplacesGrid(g, g, fields, m);
    Newer.DecodeFieldAgreesWithMoves(fields, m);
    TokensSwapSides(fields[9 * m.y + m.x]);
  }

  // ---------------------------------------------------------------------------------
  // The macroboard line

  /** The macro board after its first `n` tokens, entry 3 * row + col for the token in
      row `row`, column `col`. */
  function MacroUpTo(macro: Board, fields: seq<string>, n: int): Board
    requires n <= |fields|
  {
    seq(9, i requires 0 <= i < 9 => if i < n then MacroToken(fields[i]) else macro[i])
  }

  /** A macroboard line of nine tokens replaces the macro board whatever it held. */
  lemma FullMacroReplacesBoard(macro: Board, macro': Board, fields: seq<string>)
    requires |fields| == 9
    ensures MacroUpTo(macro, fields, 9) == MacroUpTo(macro', fields, 9)
    ensures forall i | 0 <= i < 9 :: MacroUpTo(macro, fields, 9)[i] == MacroToken(fields[i])
  {
  }

  // ---------------------------------------------------------------------------------
  // The loops of update

  /** The field loop: each token decoded and written at (row, col), the column moving on
      and wrapping to the next row after nine. At most 81 tokens, since a longer line
      would write past the last row. */
  method ReadField(s: State, fields: seq<string>) returns (r: State)
    requires |fields| <= 81
    ensures r == s.(board := FieldUpTo(s.board, fields, |fields|))
  {
    r := s;
    var row := 0;
    var col := 0;
    FieldUpToNone(s.board, fields);
    for i := 0 to |fields|
      invariant 0 <= col < 9 && 9 * row + col == i
      invariant r == s.(board := FieldUpTo(s.board, fields, i))
    {
      var p;
      if fields[i] == "0" {
        p := X;
      } else if fields[i] == "1" {
        p := O;
      } else {
        p := None;
      }
      FieldStep(s.board, fields, row, col, r.board);
      r := r.(board := r.board[row := r.board[row][col := p]]);
      col := col + 1;
      if col == 9 {
        row := row + 1;
        col := 0;
      }
    }
  }

  /** The macroboard loop: the same walk over a 3x3 board. At most 9 tokens. */
  method ReadMacroboard(s: State, fields: seq<string>) returns (r: State)
    requires |fields| <= 9
    ensures r == s.(macroboard := MacroUpTo(s.macroboard, fields, |fields|))
  {
    r := s;
    var row := 0;
    var col := 0;
    assert MacroUpTo(s.macroboard, fields, 0) == s.macroboard;
    for i := 0 to |fields|
      invariant 0 <= col < 3 && 3 * row + col == i
      invariant r == s.(macroboard := MacroUpTo(s.macroboard, fields, i))
    {
      var p;
      if fields[i] == "-1" {
        p := Active;
      } else if fields[i] == "0" {
        p := X;
      } else if fields[i] == "1" {
        p := O;
      } else {
        p := None;
      }
      r := r.(macroboard := r.macroboard[3 * row + col := p]);
      assert r.macroboard == MacroUpTo(s.macroboard, fields, i + 1);
      col := col + 1;
      if col == 3 {
        row := row + 1;
        col := 0;
      }
    }
  }

  // ---------------------------------------------------------------------------------
  // The bot

  /** The bot's settings and its picture of the game. The numbers and names start at 0
      and empty here; the class leaves them uninitialised. Only `firstMove` has a value
      of its own: true. */
  class UTTTBot {
    var timebank: int
    var timePerMove: int
    var playerNames: (string, string)
    var yourBot: string
    var yourBotId: int
    var firstMove: bool
    var round: int
    var state: State

    constructor ()
      ensures firstMove && state == DefaultState()
      ensures timebank == 0 && timePerMove == 0 && yourBotId == 0 && round == 0
      ensures playerNames == ("", "") && yourBot == ""
    {
      timebank := 0;
      timePerMove := 0;
      playerNames := ("", "");
      yourBot := "";
      yourBotId := 0;
      firstMove := true;
      round := 0;
      state := DefaultState();
    }

    /** `update game <key> <value>`. `round` sets the round; `field` writes the grid row
        by row; `macroboard` writes the macro board row by row; any other key is ignored.
        A round that does not parse (where `std::stoi` throws) changes nothing and is
        reported as not ok. */
    method Update(key: string, value: string) returns (ok: bool)
      requires key == "field" ==> |Pieces(value, ',')| <= 81
      requires key == "macroboard" ==> |Pieces(value, ',')| <= 9
      modifies this
      ensures ok <==> key != "round" || Stoi(value).Some?
      ensures round == if key == "round" && ok then Stoi(value).value else old(round)
      ensures state ==
        if key == "field" then old(state).(board := FieldUpTo(old(state).board, Pieces(value, ','), |Pieces(value, ',')|))
        else if key == "macroboard" then
          old(state).(macroboard := MacroUpTo(old(state).macroboard, Pieces(value, ','), |Pieces(value, ',')|))
        else old(state)
      ensures timebank == old(timebank) && timePerMove == old(timePerMove) && playerNames == old(playerNames)
      ensures yourBot == old(yourBot) && yourBotId == old(yourBotId) && firstMove == old(firstMove)
    {
      ok := true;
      if key == "round" {
        var n := Stoi(value);
        if n.Nothing? {
          return false;
        }
        round := n.value;
      } else if key == "field" {
        var fields := Split(value, ',');
        state := ReadField(state, fields);
      } else if key == "macroboard" {
        var fields := Split(value, ',');
        state := ReadMacroboard(state, fields);
      }
    }

    /** `settings <key> <value>`. The numbers are parsed with `std::stoi`; one that does
        not parse changes nothing and is reported as not ok. `your_bot` records the name
        and, when it is the first player's name, sets `firstMove`; nothing here ever
        clears it. */
    method Setting(key: string, value: string) returns (ok: bool)
      requires key == "player_names" ==> |Pieces(value, ',')| >= 2
      modifies this
      ensures ok <==> (key != "timebank" && key != "time_per_move" && key != "your_botid") || Stoi(value).Some?
      ensures timebank == if key == "timebank" && ok then Stoi(value).value else old(timebank)
      ensures timePerMove == if key == "time_per_move" && ok then Stoi(value).value else old(timePerMove)
      ensures playerNames ==
        if key == "player_names" then (Pieces(value, ',')[0], Pieces(value, ',')[1]) else old(playerNames)
      ensures yourBot == if key == "your_bot" then value else old(yourBot)
      ensures firstMove == (old(firstMove) || (key == "your_bot" && value == old(playerNames).0))
      ensures yourBotId == if key == "your_botid" && ok then Stoi(value).value else old(yourBotId)
      ensures round == old(round) && state == old(state)
    {
      ok := true;
      if key == "timebank" || key == "time_per_move" || key == "your_botid" {
        var n := Stoi(value);
        if n.Nothing? {
          return false;
        }
        if key == "timebank" {
          timebank := n.value;
        } else if key == "time_per_move" {
          timePerMove := n.value;
        } else {
          yourBotId := n.value;
        }
      } else if key == "player_names" {
        var names := Split(value, ',');
        playerNames := (names[0], names[1]);
      } else if key == "your_bot" {
        if value == playerNames.0 {
          firstMove := true;
        }
        yourBot := value;
      }
    }
  }

  // ---------------------------------------------------------------------------------
  // The search

  /** Scores of the bot's search: a won game for the rated player, a lost one. */
  const Win := 1
  const Loss := -1

  /** The bot's evaluation: +1 when the macro winner is `positive`, 0 when there is none,
      -1 otherwise. */
  function EvaluateState(s: State, positive: Player): (r: int)
    ensures Loss <= r <= Win
    ensures r == Win <==> MacroWinner(s.macroboard) == positive
    ensures r == 0 <==> MacroWinner(s.macroboard) == None && positive != None
  {
    var winner := MacroWinner(s.macroboard);
    if winner == positive then Win
    else if winner == None then 0
    else Loss
  }

  /** The bot scores positions as the older AI does, on a scale of 1 instead of 50. */
  lemma EvaluationScales(s: State, positive: Player)
    ensures LegacyUTTTAI.EvaluateState(s, positive) == LegacyUTTTAI.Win * EvaluateState(s, positive)
  {
  }

  /** The rating a pass of depth `depth` gives move `m`: a minimizing search below the
      child, in the window [-1, +1], with the evaluation seen by `me`. */
  function SearchRating(s: State, m: Move, me: Player, depth: nat): int
    requires OnGrid(m)
  {
    Search(TreeSearch.Rated(EvaluateState, me), LegacyUTTTAI.ChildStates, Next(s, m), depth, false, Loss, Win).value
  }

  /** Every evaluation lies in the window, so the pruned search returns the plain minimax
      value of the child, which is -1, 0 or +1. */
  lemma SearchRatingIsMinimax(s: State, m: Move, me: Player, depth: nat)
    requires OnGrid(m)
    ensures SearchRating(s, m, me, depth) ==
      Value(TreeSearch.Rated(EvaluateState, me), LegacyUTTTAI.ChildStates, Next(s, m), depth, false)
    ensures Loss <= SearchRating(s, m, me, depth) <= Win
  {
    var eval := TreeSearch.Rated(EvaluateState, me);
    forall t: State
      ensures Loss <= eval(t) <= Win
    {
      assert eval(t) == EvaluateState(t, me);
    }
    ExhaustiveWindow(eval, LegacyUTTTAI.ChildStates, Next(s, m), depth, false, Loss, Win);
    ValueBounded(eval, LegacyUTTTAI.ChildStates, Next(s, m), depth, false, Loss, Win);
  }

  /** The ratings of the first pass, one per move. */
  function FirstPass(s: State, moves: seq<Move>, me: Player): (v: seq<int>)
    requires forall k | 0 <= k < |moves| :: OnGrid(moves[k])
    ensures |v| == |moves|
  {
    seq(|moves|, k requires 0 <= k < |moves| => SearchRating(s, moves[k], me, LegacyUTTTAI.InitialSearchDepth))
  }

  /** The first index from `k` on whose rating is exactly +1, or |v| when there is none. */
  function FirstWin(v: seq<int>, k: nat): (w: nat)
    requires k <= |v|
    ensures k <= w <= |v|
    ensures w < |v| ==> v[w] == Win
    ensures forall j | k <= j < w :: v[j] != Win
    decreases |v| - k
  {
    if k == |v| then |v|
    else if v[k] == Win then k
    else FirstWin(v, k + 1)
  }

  // ---------------------------------------------------------------------------------
  // The move choice

  /** The move findBestMove plays among `moves` with first-pass ratings `v`, `pick` being
      the random choice: no move when there are none; the only move when there is one;
      otherwise the first move rated +1; failing that, one of the moves of the highest
      rating. */
  function Decide(moves: seq<Move>, v: seq<int>, pick: nat): Option<Move>
    requires |moves| == |v|
  {
    if |moves| == 0 then Nothing
    else if |moves| == 1 then Some(moves[0])
    else
      var w := FirstWin(v, 0);
      if w < |moves| then Some(moves[w])
      else
        var best := LegacyUTTTAI.KeepBest(moves, v);
        LegacyUTTTAI.KeepBestMeaning(moves, v);
        Some(best[pick % |best|])
  }

  /** The move findBestMove plays in state `s`, by the first-pass ratings of the legal
      moves for the player to move. No move when there are no legal moves (the code then
      reads an empty rating list). */
  function Choice(s: State, pick: nat): Option<Move> {
    var moves := LegalMoves(s);
    LegacyUTTTAI.LegalMovesOnGrid(s);
    Decide(moves, FirstPass(s, moves, CurrentPlayer(s)), pick)
  }

  /** Choice is Decide on the legal moves and their first-pass ratings. */
  lemma ChoiceIsDecide(s: State, pick: nat)
    requires forall j | 0 <= j < |LegalMoves(s)| :: OnGrid(LegalMoves(s)[j])
    ensures Choice(s, pick) == Decide(LegalMoves(s), FirstPass(s, LegalMoves(s), CurrentPlayer(s)), pick)
  {
  }

  /** The move decided on is one of the moves, and there is one whenever there are moves. */
  lemma DecideIsAmong(moves: seq<Move>, v: seq<int>, pick: nat)
    requires |moves| == |v|
    ensures Decide(moves, v, pick) == Nothing <==> |moves| == 0
    ensures Decide(moves, v, pick).Some? ==> Decide(moves, v, pick).value in moves
  {
    if |moves| > 1 && FirstWin(v, 0) == |moves| {
      var best := LegacyUTTTAI.KeepBest(moves, v);
      LegacyUTTTAI.KeepBestMeaning(moves, v);
      var k :| 0 <= k < |moves| && moves[k] == best[pick % |best|] && forall i | 0 <= i < |v| :: v[i] <= v[k];
    }
  }

  /** Without a move rated +1, two or more moves leave one of the highest rating. */
  lemma DecideIsTopRated(moves: seq<Move>, v: seq<int>, pick: nat)
    requires |moves| == |v| > 1 && forall k | 0 <= k < |moves| :: v[k] != Win
    ensures Decide(moves, v, pick).Some?
    ensures exists b | 0 <= b < |moves| :: moves[b] == Decide(moves, v, pick).value && forall j | 0 <= j < |v| :: v[j] <= v[b]
  {
    assert FirstWin(v, 0) == |moves|;
    var best := LegacyUTTTAI.KeepBest(moves, v);
    LegacyUTTTAI.KeepBestMeaning(moves, v);
    var b :| 0 <= b < |moves| && moves[b] == best[pick % |best|] && forall i | 0 <= i < |v| :: v[i] <= v[b];
  }

  /** findBestMove plays nothing exactly when there is no legal move, and otherwise a
      legal move. */
  lemma ChoiceIsLegal(s: State, pick: nat)
    ensures Choice(s, pick) == Nothing <==> |LegalMoves(s)| == 0
    ensures Choice(s, pick).Some? ==> Choice(s, pick).value in LegalMoves(s)
  {
    var moves := LegalMoves(s);
    LegacyUTTTAI.LegalMovesOnGrid(s);
    DecideIsAmong(moves, FirstPass(s, moves, CurrentPlayer(s)), pick);
  }

  /** With two or more legal moves, a move rated +1 in the first pass is played when
      no move before it is. */
  lemma ChoiceTakesFirstWin(s: State, pick: nat, k: int)
    requires forall j | 0 <= j < |LegalMoves(s)| :: OnGrid(LegalMoves(s)[j])
    requires |LegalMoves(s)| > 1 && 0 <= k < |LegalMoves(s)|
    requires var v := FirstPass(s, LegalMoves(s), CurrentPlayer(s));
      v[k] == Win && forall j | 0 <= j < k :: v[j] != Win
    ensures Choice(s, pick) == Some(LegalMoves(s)[k])
  {
    var v := FirstPass(s, LegalMoves(s), CurrentPlayer(s));
    ChoiceIsDecide(s, pick);
    assert FirstWin(v, 0) == k;
  }

  /** With two or more legal moves none of which rates +1 in the first pass, the move
      played has the highest first-pass rating. */
  lemma ChoiceIsTopRated(s: State, pick: nat)
    requires forall j | 0 <= j < |LegalMoves(s)| :: OnGrid(LegalMoves(s)[j])
    requires |LegalMoves(s)| > 1
    requires forall k | 0 <= k < |LegalMoves(s)| :: FirstPass(s, LegalMoves(s), CurrentPlayer(s))[k] != Win
    ensures Choice(s, pick).Some?
    ensures exists b | 0 <= b < |LegalMoves(s)| ::
      LegalMoves(s)[b] == Choice(s, pick).value && forall j | 0 <= j < |LegalMoves(s)| ::
        FirstPass(s, LegalMoves(s), CurrentPlayer(s))[j] <= FirstPass(s, LegalMoves(s), CurrentPlayer(s))[b]
  {
    ChoiceIsDecide(s, pick);
    DecideIsTopRated(LegalMoves(s), FirstPass(s, LegalMoves(s), CurrentPlayer(s)), pick);
  }

  // ---------------------------------------------------------------------------------
  // findBestMove

  /** The search below the child of one move, as the pass loop runs it. */
  method RateChild(state: State, move: Move, me: Player, searchDepth: nat) returns (rating: int, full: bool)
    requires OnGrid(move)
    ensures rating == SearchRating(state, move, me, searchDepth)
  {
    var child := DoMove(state, move);
    var fullMoveTreeEvaluated := true;
    rating, full := TreeSearch.MiniMaxAB(child, EvaluateState, LegacyUTTTAI.ChildStates, searchDepth, false, me,
                                         Loss, Win, fullMoveTreeEvaluated);
  }

  /** The first `n` entries of `ratings` are those of `v`. */
  ghost predicate Agrees(ratings: seq<int>, v: seq<int>, n: int) {
    0 <= n <= |v| && n <= |ratings| && forall j | 0 <= j < n :: ratings[j] == v[j]
  }

  /** After the first pass: its ratings `v` lead `moveRatings`, and none is +1. */
  ghost predicate Settled(moveRatings: seq<int>, v: seq<int>) {
    Agrees(moveRatings, v, |v|) && FirstWin(v, 0) == |v|
  }

  /** Appending keeps the entries already there. */
  lemma AgreesAppend(ratings: seq<int>, v: seq<int>, n: int, x: int)
    requires Agrees(ratings, v, n)
    ensures Agrees(ratings + [x], v, n)
  {
    forall j | 0 <= j < n
      ensures (ratings + [x])[j] == v[j]
    {
      assert (ratings + [x])[j] == ratings[j];
    }
  }

  /** Appending the next entry of `v` to an agreeing prefix of the same length. */
  lemma AgreesExtend(ratings: seq<int>, v: seq<int>, n: int)
    requires Agrees(ratings, v, n) && |ratings| == n < |v|
    ensures Agrees(ratings + [v[n]], v, n + 1)
  {
    AgreesAppend(ratings, v, n, v[n]);
  }

  /** One pass: every child is searched at `searchDepth` and its rating appended. The win
      check reads `moveRatings[i]`, the first pass's rating, so the first pass returns its
      first move rated +1 and a later pass never returns early. Without an early return
      the first pass's ratings lead the list. */
  method SearchPass(state: State, moves: seq<Move>, me: Player, searchDepth: nat, moveRatings: seq<int>)
    returns (win: Option<Move>, ratings: seq<int>)
    requires forall k | 0 <= k < |moves| :: OnGrid(moves[k])
    requires (moveRatings == [] && searchDepth == LegacyUTTTAI.InitialSearchDepth) || Settled(moveRatings, FirstPass(state, moves, me))
    ensures var v := FirstPass(state, moves, me);
      moveRatings == [] && searchDepth == LegacyUTTTAI.InitialSearchDepth ==>
        win == (if FirstWin(v, 0) < |moves| then Some(moves[FirstWin(v, 0)]) else Nothing)
    ensures Settled(moveRatings, FirstPass(state, moves, me)) ==> win == Nothing
    ensures win == Nothing ==> Settled(ratings, FirstPass(state, moves, me))
  {
    ghost var v := FirstPass(state, moves, me);
    ghost var first := moveRatings == [] && searchDepth == LegacyUTTTAI.InitialSearchDepth;
    ratings := moveRatings;
    for i := 0 to |moves|
      invariant |ratings| == |moveRatings| + i
      invariant Agrees(ratings, v, if first then i else |v|)
      invariant FirstWin(v, i) == FirstWin(v, 0)
    {
      var rating, fullMoveTreeEvaluated := RateChild(state, moves[i], me, searchDepth);
      if first {
        AgreesExtend(ratings, v, i);
      } else {
        AgreesAppend(ratings, v, |v|, rating);
      }
      ratings := ratings + [rating];
      assert ratings[i] == v[i];
      if ratings[i] == Win {
        return Some(moves[i]), ratings;
      }
    }
    win := Nothing;
  }

  /** The passes: each searches one level deeper than the last and appends its ratings to
      `moveRatings`, which is never cleared. A pass that searched every child to the end
      does not stop the passes; the clock allows `clockPasses` passes in all (at least
      one, the loop being a do-while). */
  method SearchPasses(state: State, moves: seq<Move>, me: Player, clockPasses: nat)
    returns (win: Option<Move>, moveRatings: seq<int>)
    requires forall k | 0 <= k < |moves| :: OnGrid(moves[k])
    ensures var v := FirstPass(state, moves, me);
      win == (if FirstWin(v, 0) < |moves| then Some(moves[FirstWin(v, 0)]) else Nothing)
    ensures win == Nothing ==> |moves| <= |moveRatings| && moveRatings[..|moves|] == FirstPass(state, moves, me)
  {
    ghost var v := FirstPass(state, moves, me);
    moveRatings := [];
    var searchDepth: nat := LegacyUTTTAI.InitialSearchDepth;
    var pass := 0;
    while pass == 0 || pass < clockPasses
      invariant pass == 0 ==> moveRatings == [] && searchDepth == LegacyUTTTAI.InitialSearchDepth
      invariant pass > 0 ==> Settled(moveRatings, v)
      invariant pass <= if clockPasses == 0 then 1 else clockPasses
      decreases (if clockPasses == 0 then 1 else clockPasses) - pass
    {
      var found;
      found, moveRatings := SearchPass(state, moves, me, searchDepth, moveRatings);
      if found.Some? {
        return found, moveRatings;
      }
      pass := pass + 1;
      searchDepth := searchDepth + 1;
    }
    assert moveRatings[..|moves|] == v;
    win := Nothing;
  }

  /** The highest of the first `n` ratings, starting from the first. */
  method HighestRating(moveRatings: seq<int>, n: int) returns (highestRating: int)
    requires 0 < n <= |moveRatings|
    ensures highestRating == UTTTAI.MaxOf(moveRatings[..n])
  {
    highestRating := moveRatings[0];
    for i := 0 to n
      invariant highestRating == if i == 0 then moveRatings[0] else UTTTAI.MaxOf(moveRatings[..i])
    {
      assert moveRatings[..i + 1][..i] == moveRatings[..i];
      if moveRatings[i] > highestRating {
        highestRating := moveRatings[i];
      }
    }
  }

  /** The moves whose rating equals `highestRating`, in move order. */
  method CollectRated(moves: seq<Move>, moveRatings: seq<int>, highestRating: int) returns (bestMoves: seq<Move>)
    requires |moves| <= |moveRatings|
    ensures bestMoves == UTTTAI.KeepRated(moves, moveRatings[..|moves|], highestRating, |moves|)
  {
    ghost var v := moveRatings[..|moves|];
    bestMoves := [];
    for i := 0 to |moves|
      invariant bestMoves == UTTTAI.KeepRated(moves, v, highestRating, i)
    {
      assert moveRatings[i] == v[i];
      if moveRatings[i] == highestRating {
        bestMoves := bestMoves + [moves[i]];
      }
    }
  }

  /** findBestMove: the legal moves, the passes, the moves tied for the highest rating of
      the first pass, and the random pick among them. `clockPasses` stands for the clock
      that ends the passes and `pick` for the random choice. */
  method FindBestMove(state: State, clockPasses: nat, pick: nat) returns (bestMove: Option<Move>)
    ensures bestMove == Choice(state, pick)
  {
    var me := GetCurrentPlayer(state);
    var moves := GetMoves(state);
    LegacyUTTTAI.LegalMovesOnGrid(state);
    ChoiceIsDecide(state, pick);
    if |moves| == 0 {
      return Nothing;
    }
    if |moves| == 1 {
      return Some(moves[0]);
    }
    var win, moveRatings := SearchPasses(state, moves, me, clockPasses);
    if win.Some? {
      return win;
    }
    ghost var v := FirstPass(state, moves, me);
    var highestRating := HighestRating(moveRatings, |moves|);
    var bestMoves := CollectRated(moves, moveRatings, highestRating);
    assert bestMoves == LegacyUTTTAI.KeepBest(moves, v);
    LegacyUTTTAI.KeepBestMeaning(moves, v);
    bestMove := Some(bestMoves[pick % |bestMoves|]);
  }
}
