/** The older generation's move selection (utttai.cpp): a deepening alpha-beta search over
    the children of the state, ties among the best searched moves broken by an additive
    heuristic over the sub-boards, and a random pick among what is still tied.

    Two helpers the code calls have no definition anywhere in the repository: the
    "two in a row" test `ttt::CheckSetups` and the winnability `ttt::IsWinnableBy`. They
    are parameters here (`setups` and `winnableBy`), so every property below holds for
    every choice of them. */
module LegacyUTTTAI {
  import opened Common
  import TTT
  import opened LegacyUTTT
  import opened Minimax
  import TreeSearch
  import UTTTAI

  /** `ttt::CheckSetups(board, player)`. */
  type Setups = (Board, Player) -> bool

  /** `ttt::IsWinnableBy(board)`. */
  type WinnableBy = Board -> Player

  /** The depth of the first search pass. */
  const InitialSearchDepth := 1

  /** Scores of the search: a won game for the rated player, an undecided one, a lost one. */
  const Win := 50
  const Loss := -50

  // ---------------------------------------------------------------------------------
  // Evaluations

  /** The search evaluation: the macro winner seen by `player`. */
  function EvaluateState(s: State, player: Player): (r: int)
    ensures r == Win <==> MacroWinner(s.macroboard) == player
    ensures r == 0 <==> MacroWinner(s.macroboard) == None && player != None
    ensures r == Loss <==> MacroWinner(s.macroboard) != player && MacroWinner(s.macroboard) != None
  {
    var winner := MacroWinner(s.macroboard);
    if winner == player then Win
    else if winner == None then 0
    else Loss
  }

  /** The evaluation is zero-sum between X and O: the macro winner is never Active, and
      on the boards the game produces it is never Both either. */
  lemma EvaluationIsZeroSum(s: State)
    requires MacroWinner(s.macroboard) != Both
    ensures EvaluateState(s, X) == -EvaluateState(s, O)
  {
  }

  /** The rating of a single sub-board for `player`: +10 when `player` has won it, -10
      when it can only be won by the other side (or was won by it), 0 otherwise. */
  function EvaluateMicroState(b: Board, player: Player, winnableBy: WinnableBy): (r: int)
    ensures r == 10 || r == 0 || r == -10
    ensures r == 10 <==> TTT.GetWinner(b) == player
    ensures r == 0 <==>
      (TTT.GetWinner(b) == None && player != None && (winnableBy(b) == player || winnableBy(b) == Both))
  {
    var winner := TTT.GetWinner(b);
    if winner == player then 10
    else
      var possibleWinner := winnableBy(b);
      if possibleWinner != player && possibleWinner != Both then -10
      else if winner == None then 0
      else -10
  }

  /** The other side of `me`. */
  function Other(me: Player): Player {
    if me == X then O else X
  }

  /** The rating of the sub-board a move sends the opponent to: penalties of 2 for a
      setup of either side on it and of 5 for a board with no move left (so the opponent
      may choose freely); without penalties, 0 for a board both can still win, 1 for one
      only one side can win and 5 for one nobody can win. */
  function EvaluateNextPossibilities(b: Board, me: Player, setups: Setups, winnableBy: WinnableBy): (r: int)
    ensures r < 0 <==> setups(b, me) || setups(b, Other(me)) || TTT.Moves(b) == []
    ensures r == 5 <==> r >= 0 && winnableBy(b) == None
    ensures r == 1 <==> r >= 0 && (winnableBy(b) == X || winnableBy(b) == O)
    ensures -9 <= r <= 5
  {
    var other := Other(me);
    var score :=
      (if setups(b, me) then -2 else 0) + (if setups(b, other) then -2 else 0) +
      (if |TTT.Moves(b)| == 0 then -5 else 0);
    if score != 0 then score
    else
      var nextWinnableBy := winnableBy(b);
      if nextWinnableBy == Both then 0
      else if nextWinnableBy == X || nextWinnableBy == O then 1
      else if nextWinnableBy == None then 5
      else 0
  }

  // ---------------------------------------------------------------------------------
  // Children and sub-boards

  /** The children of a state: one per legal move, in the order of the legal moves. */
  function ChildStates(s: State): (r: seq<State>)
    ensures |r| == |LegalMoves(s)|
    ensures forall k | 0 <= k < |r| :: r[k] == Next(s, LegalMoves(s)[k])
  {
    var moves := LegalMoves(s);
    seq(|moves|, k requires 0 <= k < |moves| => Next(s, moves[k]))
  }

  method GetChildStates(state: State) returns (children: seq<State>)
    ensures children == ChildStates(state)
  {
    children := [];
    var moves := GetMoves(state);
    ghost var all := ChildStates(state);
    var i := 0;
    while i < |moves|
      invariant 0 <= i <= |moves| == |all|
      invariant children == all[..i]
    {
      LegalMoveOnGrid(state, i);
      var child := DoMove(state, moves[i]);
      ChildAt(state, i, child);
      PrefixStep(all, i);
      children := children + [child];
      i := i + 1;
    }
    assert all[..i] == all;
  }

  /** Legal move `i` is on the grid. */
  lemma LegalMoveOnGrid(s: State, i: int)
    requires 0 <= i < |LegalMoves(s)|
    ensures OnGrid(LegalMoves(s)[i])
  {
    assert LegalMoves(s)[i] in LegalMoves(s);
  }

  /** The state legal move `i` leads to is child `i`. */
  lemma ChildAt(s: State, i: int, child: State)
    requires 0 <= i < |LegalMoves(s)| && OnGrid(LegalMoves(s)[i])
    requires child == Next(s, LegalMoves(s)[i])
    ensures i < |ChildStates(s)| && child == ChildStates(s)[i]
  {
  }

  /** The sub-board a move is played in, or with `getNext` the sub-board it sends the
      opponent to, read out as a nine-cell board. */
  function Micro(board: Grid, m: Move, getNext: bool): (b: Board)
    requires OnGrid(m)
    ensures forall i | 0 <= i < 9 ::
      b[i] == if getNext then board[3 * (m.y % 3) + i / 3][3 * (m.x % 3) + i % 3]
              else board[3 * (m.y / 3) + i / 3][3 * (m.x / 3) + i % 3]
  {
    if getNext then
      SubBoardCells(board, m.y % 3, m.x % 3);
      SubBoard(board, m.y % 3, m.x % 3)
    else
      SubBoardCells(board, m.y / 3, m.x / 3);
      SubBoard(board, m.y / 3, m.x / 3)
  }

  method GetMicroState(state: State, move: Move, getNext: bool) returns (microState: Board)
    requires OnGrid(move)
    ensures microState == Micro(state.board, move, getNext)
  {
    var xStart, yStart;
    if !getNext {
      xStart := (move.y / 3) * 3;
      yStart := (move.x / 3) * 3;
      DigitsOfBase3(0, move.y / 3);
      DigitsOfBase3(0, move.x / 3);
    } else {
      xStart := (move.y % 3) * 3;
      yStart := (move.x % 3) * 3;
      DigitsOfBase3(0, move.y % 3);
      DigitsOfBase3(0, move.x % 3);
    }
    microState := ReadSubBoard(state.board, xStart, yStart);
  }

  /** The copying loop of GetMicroState: the 3x3 block whose top-left cell is row `xStart`,
      column `yStart`, row by row. */
  method ReadSubBoard(board: Grid, xStart: int, yStart: int) returns (cells: Board)
    requires xStart in {0, 3, 6} && yStart in {0, 3, 6}
    ensures cells == SubBoard(board, xStart / 3, yStart / 3)
  {
    ghost var target := SubBoard(board, xStart / 3, yStart / 3);
    cells := EmptyBoard();
    var i := 0;
    var x := xStart;
    while x < xStart + 3
      invariant xStart <= x <= xStart + 3 && i == 3 * (x - xStart)
      invariant forall j | 0 <= j < i :: cells[j] == target[j]
    {
      var y := yStart;
      while y < yStart + 3
        invariant yStart <= y <= yStart + 3 && i == 3 * (x - xStart) + (y - yStart)
        invariant forall j | 0 <= j < i :: cells[j] == target[j]
      {
        DigitsOfBase3(y - yStart, x - xStart);
        cells := cells[i := board[x][y]];
        i := i + 1;
        y := y + 1;
      }
      x := x + 1;
    }
  }

  // ---------------------------------------------------------------------------------
  // Preferred macro boards

  /** A coordinate on the macro board. */
  type Coord = i: int | 0 <= i < 3

  /** A position on the macro board: column `x`, row `y` (the member order of the
      aggregate initialisers is taken to be x, then y). Every position the code builds
      comes from its line table, so both coordinates lie in 0..2. */
  datatype MacroState = MacroState(x: Coord, y: Coord)

  /** The flat macro board index of a position, row by row. */
  function Index(ms: MacroState): Cell {
    3 * ms.y + ms.x
  }

  /** The line table of GetPreferredMacroBoards: the three columns, the three rows and the
      two diagonals, each as a list of positions. */
  const MacroWins: seq<seq<MacroState>> := [
    [MacroState(0, 0), MacroState(0, 1), MacroState(0, 2)],
    [MacroState(1, 0), MacroState(1, 1), MacroState(1, 2)],
    [MacroState(2, 0), MacroState(2, 1), MacroState(2, 2)],
    [MacroState(0, 0), MacroState(1, 0), MacroState(2, 0)],
    [MacroState(0, 1), MacroState(1, 1), MacroState(2, 1)],
    [MacroState(0, 2), MacroState(1, 2), MacroState(2, 2)],
    [MacroState(0, 0), MacroState(1, 1), MacroState(2, 2)],
    [MacroState(2, 0), MacroState(1, 1), MacroState(0, 2)]]

  /** One entry of the copy GetPreferredMacroBoards scans: Active becomes None, X and O are
      kept, and anything else keeps the Active of a freshly constructed state. */
  function Clean(p: Player): Player {
    if p == Active then None else if p == X then X else if p == O then O else Active
  }

  /** The copy of the macro board GetPreferredMacroBoards scans: the open boards are None
      in it, the won ones keep their winner, and every other entry reads Active. */
  function Cleaned(macro: Board): (c: Board)
    ensures forall i | 0 <= i < 9 :: c[i] == None <==> macro[i] == Active
    ensures forall i | 0 <= i < 9 :: c[i] == X <==> macro[i] == X
    ensures forall i | 0 <= i < 9 :: c[i] == O <==> macro[i] == O
    ensures forall i | 0 <= i < 9 :: c[i] == Active <==> macro[i] != Active && macro[i] != X && macro[i] != O
  {
    seq(9, i requires 0 <= i < 9 => Clean(macro[i]))
  }

  /** The scan of one line: `count` cells of the player and the open cells `temp`. */
  datatype Tally = Tally(count: int, temp: seq<MacroState>)

  predicate AllOpen(current: Board, ms: seq<MacroState>) {
    forall j | 0 <= j < |ms| :: current[Index(ms[j])] == None
  }

  /** The scan of a line from entry `k` on: a cell of `player` is counted, an open cell is
      collected, and any other cell resets the count and stops the scan. */
  function ScanLine(current: Board, win: seq<MacroState>, player: Player, k: nat, acc: Tally): (t: Tally)
    requires k <= |win|
    ensures |t.temp| <= |acc.temp| + |win| - k
    ensures AllOpen(current, acc.temp) ==> AllOpen(current, t.temp)
    decreases |win| - k
  {
    if k == |win| then acc
    else
      var v := current[Index(win[k])];
      if v == player then ScanLine(current, win, player, k + 1, acc.(count := acc.count + 1))
      else if v == None then ScanLine(current, win, player, k + 1, acc.(temp := acc.temp + [win[k]]))
      else Tally(0, acc.temp)
  }

  /** What one line adds to the preferred boards: its open cells, when the scan counted
      exactly `num` and collected some. */
  function Contribution(current: Board, win: seq<MacroState>, player: Player, num: int): (r: seq<MacroState>)
    ensures |r| <= |win| && AllOpen(current, r)
  {
    var t := ScanLine(current, win, player, 0, Tally(0, []));
    if t.count == num && |t.temp| != 0 then t.temp else []
  }

  /** The contributions of the first `w` lines, in table order. */
  function PreferredBelow(current: Board, player: Player, num: int, w: nat): (r: seq<MacroState>)
    requires w <= 8
    ensures |r| <= 3 * w && AllOpen(current, r)
  {
    if w == 0 then []
    else
      var below := PreferredBelow(current, player, num, w - 1);
      MacroWinsShape();
      var line := Contribution(current, MacroWins[w - 1], player, num);
      AllOpenConcat(current, below, line);
      below + line
  }

  /** The line table has eight lines of three positions each. */
  lemma MacroWinsShape()
    ensures |MacroWins| == 8 && forall i | 0 <= i < 8 :: |MacroWins[i]| == 3
  {
  }

  lemma AllOpenConcat(current: Board, a: seq<MacroState>, b: seq<MacroState>)
    requires AllOpen(current, a) && AllOpen(current, b)
    ensures AllOpen(current, a + b)
  {
    forall j | 0 <= j < |a + b|
      ensures current[Index((a + b)[j])] == None
    {
      if j >= |a| {
        assert (a + b)[j] == b[j - |a|];
      }
    }
  }

  /** The boards worth playing towards for `player`: the open boards of the macro lines
      that already hold `num` of its boards. Each is open in the input, and there are at
      most three per line. */
  function PreferredMacroBoards(macro: Board, player: Player, num: int): (r: seq<MacroState>)
    ensures |r| <= 24
    ensures forall j | 0 <= j < |r| :: macro[Index(r[j])] == Active
  {
    PreferredBelow(Cleaned(macro), player, num, 8)
  }

  /** `n` plus the number of entries of `win` from `k` on that hold `p`. */
  function CountFrom(current: Board, win: seq<MacroState>, p: Player, k: nat, n: int): int
    requires k <= |win|
    decreases |win| - k
  {
    if k == |win| then n else CountFrom(current, win, p, k + 1, if current[Index(win[k])] == p then n + 1 else n)
  }

  /** `open` followed by the entries of `win` from `k` on that are open, in order. */
  function OpenFrom(current: Board, win: seq<MacroState>, k: nat, open: seq<MacroState>): seq<MacroState>
    requires k <= |win|
    decreases |win| - k
  {
    if k == |win| then open
    else OpenFrom(current, win, k + 1, if current[Index(win[k])] == None then open + [win[k]] else open)
  }

  /** Some entry of `win` from `k` on is neither `p` nor open. */
  predicate BlockedFrom(current: Board, win: seq<MacroState>, p: Player, k: nat)
    requires k <= |win|
    decreases |win| - k
  {
    k < |win| && ((current[Index(win[k])] != p && current[Index(win[k])] != None) || BlockedFrom(current, win, p, k + 1))
  }

  /** A blocking cell stops the scan of a line with a count of zero. */
  lemma {:induction false} BlockedScanCountsNothing(current: Board, win: seq<MacroState>, p: Player, k: nat, acc: Tally)
    requires k <= |win| && BlockedFrom(current, win, p, k)
    ensures ScanLine(current, win, p, k, acc).count == 0
    decreases |win| - k
  {
    var v := current[Index(win[k])];
    if v == p {
      BlockedScanCountsNothing(current, win, p, k + 1, acc.(count := acc.count + 1));
    } else if v == None {
      BlockedScanCountsNothing(current, win, p, k + 1, acc.(temp := acc.temp + [win[k]]));
    }
  }

  /** Without a blocking cell the scan of a line counts its cells of `p` and collects its
      open cells in order. */
  lemma {:induction false} ClearScanCounts(current: Board, win: seq<MacroState>, p: Player, k: nat, acc: Tally)
    requires k <= |win| && p != None && !BlockedFrom(current, win, p, k)
    ensures ScanLine(current, win, p, k, acc) == Tally(CountFrom(current, win, p, k, acc.count), OpenFrom(current, win, k, acc.temp))
    decreases |win| - k
  {
    if k < |win| {
      var v := current[Index(win[k])];
      if v == p {
        ClearScanCounts(current, win, p, k + 1, acc.(count := acc.count + 1));
      } else {
        ClearScanCounts(current, win, p, k + 1, acc.(temp := acc.temp + [win[k]]));
      }
    }
  }

  /** For a positive `num`, a macro line contributes exactly when nothing blocks it, it
      holds exactly `num` boards of `player` and some board of it is open; it then adds
      its open boards in line order. */
  lemma LineContribution(current: Board, w: int, player: Player, num: int)
    requires 0 <= w < 8 && num > 0 && player != None
    ensures var win := MacroWins[w];
      Contribution(current, win, player, num) ==
        if !BlockedFrom(current, win, player, 0) && CountFrom(current, win, player, 0, 0) == num && OpenFrom(current, win, 0, []) != []
        then OpenFrom(current, win, 0, []) else []
  {
    if BlockedFrom(current, MacroWins[w], player, 0) {
      BlockedScanCountsNothing(current, MacroWins[w], player, 0, Tally(0, []));
    } else {
      ClearScanCounts(current, MacroWins[w], player, 0, Tally(0, []));
    }
  }

  method GetPreferredMacroBoards(state: State, player: Player, num: int) returns (preferredBoards: seq<MacroState>)
    ensures preferredBoards == PreferredMacroBoards(state.macroboard, player, num)
  {
    var current := CleanMacroboard(state);
    preferredBoards := CollectPreferred(current.macroboard, player, num);
  }

  /** The scan of every macro line of the cleaned macroboard in GetPreferredMacroBoards. */
  method CollectPreferred(current: Board, player: Player, num: int) returns (preferredBoards: seq<MacroState>)
    ensures preferredBoards == PreferredBelow(current, player, num, 8)
  {
    preferredBoards := [];
    for w := 0 to 8
      invariant preferredBoards == PreferredBelow(current, player, num, w)
    {
      var count, temp := ScanWin(current, MacroWins[w], player);
      PreferredStep(current, player, num, w, count, temp);
      if count == num && |temp| != 0 {
        preferredBoards := AppendAll(preferredBoards, temp);
      }
    }
  }

  /** One more line of the table adds the open cells of its scan, or nothing. */
  lemma PreferredStep(current: Board, player: Player, num: int, w: nat, count: int, temp: seq<MacroState>)
    requires w < 8
    requires Tally(count, temp) == ScanLine(current, MacroWins[w], player, 0, Tally(0, []))
    ensures count == num && |temp| != 0 ==>
      PreferredBelow(current, player, num, w + 1) == PreferredBelow(current, player, num, w) + temp
    ensures !(count == num && |temp| != 0) ==>
      PreferredBelow(current, player, num, w + 1) == PreferredBelow(current, player, num, w)
  {
    var before := PreferredBelow(current, player, num, w);
    if !(count == num && |temp| != 0) {
      assert before + [] == before;
    }
  }

  /** The copy of the macroboard that GetPreferredMacroBoards scans: open boards become
      empty cells, won boards keep their owner and drawn boards stay blocked. */
  method CleanMacroboard(state: State) returns (current: State)
    ensures current.macroboard == Cleaned(state.macroboard)
  {
    current := DefaultState();
    for r := 0 to 3
      invariant |current.macroboard| == 9
      invariant forall i | 0 <= i < 9 :: current.macroboard[i] == if i < 3 * r then Clean(state.macroboard[i]) else Active
    {
      for c := 0 to 3
        invariant |current.macroboard| == 9
        invariant forall i | 0 <= i < 9 :: current.macroboard[i] == if i < 3 * r + c then Clean(state.macroboard[i]) else Active
      {
        var i := 3 * r + c;
        if state.macroboard[i] == Active {
          current := current.(macroboard := current.macroboard[i := None]);
        }
        if state.macroboard[i] == X {
          current := current.(macroboard := current.macroboard[i := X]);
        }
        if state.macroboard[i] == O {
          current := current.(macroboard := current.macroboard[i := O]);
        }
      }
    }
    assert current.macroboard == Cleaned(state.macroboard);
  }

  /** The push_back loop that copies one line's open cells onto the preferred boards. */
  method AppendAll(acc: seq<MacroState>, temp: seq<MacroState>) returns (r: seq<MacroState>)
    ensures r == acc + temp
  {
    r := acc;
    for k := 0 to |temp|
      invariant r == acc + temp[..k]
    {
      assert temp[..k + 1] == temp[..k] + [temp[k]];
      r := r + [temp[k]];
    }
    assert temp[..|temp|] == temp;
  }

  /** The scan of one line in GetPreferredMacroBoards. */
  method ScanWin(current: Board, win: seq<MacroState>, player: Player) returns (count: int, temp: seq<MacroState>)
    ensures Tally(count, temp) == ScanLine(current, win, player, 0, Tally(0, []))
  {
    count := 0;
    temp := [];
    var k := 0;
    while k < |win|
      invariant 0 <= k <= |win|
      invariant ScanLine(current, win, player, k, Tally(count, temp)) == ScanLine(current, win, player, 0, Tally(0, []))
    {
      var m := win[k];
      if current[3 * m.y + m.x] == player {
        count := count + 1;
      } else if current[3 * m.y + m.x] == None {
        temp := temp + [m];
      } else if current[3 * m.y + m.x] != None {
        count := 0;
        break;
      }
      k := k + 1;
    }
  }

  // ---------------------------------------------------------------------------------
  // Secondary evaluation of the moves the search rated best

  /** The four lists of preferred macro boards EvaluateBestMoves computes once: the
      boards in line with two of my won boards, with two of the enemy's, and with one of
      each. */
  datatype Preferences = Preferences(mine: seq<MacroState>, enemy: seq<MacroState>,
                                     myLess: seq<MacroState>, enemyLess: seq<MacroState>)

  function PreferencesOf(s: State, me: Player): Preferences {
    Preferences(PreferredMacroBoards(s.macroboard, me, 2), PreferredMacroBoards(s.macroboard, Other(me), 2),
                PreferredMacroBoards(s.macroboard, me, 1), PreferredMacroBoards(s.macroboard, Other(me), 1))
  }

  /** What one preferred board adds to a move's rating: `bonus` when the move is played in
      that board, minus `penalty` when it sends the opponent there, and nothing otherwise. */
  function Alignment(m: Move, ms: MacroState, bonus: int, penalty: int): int {
    if m.x / 3 == ms.x && m.y / 3 == ms.y then bonus
    else if m.x % 3 == ms.x && m.y % 3 == ms.y then -penalty
    else 0
  }

  /** The alignments of the move with the first `n` preferred boards. With a penalty of at
      most 9 (or 3) and a bonus that is not negative, each board costs at most 9 (or 3). */
  function AlignmentSum(m: Move, boards: seq<MacroState>, bonus: int, penalty: int, n: nat): (r: int)
    requires n <= |boards|
    ensures bonus >= 0 && penalty <= 9 ==> r >= -9 * n
    ensures bonus >= 0 && penalty <= 3 ==> r >= -3 * n
    ensures bonus <= 0 && penalty >= 0 ==> r <= 0
  {
    if n == 0 then 0
    else AlignmentSum(m, boards, bonus, penalty, n - 1) + Alignment(m, boards[n - 1], bonus, penalty)
  }

  /** The "new two in a row" bonus as the code has it. The condition is written
      `!CheckSetups(before, me), CheckSetups(after, me)`: the comma operator evaluates and
      discards the first operand, so only the board after the move is consulted. */
  function SetupBonusAsWritten(before: Board, after: Board, me: Player, setups: Setups): (r: int)
    ensures r == 5 <==> setups(after, me)
    ensures r == 0 <==> !setups(after, me)
  {
    if setups(after, me) then 5 else 0
  }

  /** The "new two in a row" bonus as intended (the same test the preferred-board bonus
      makes): 5 only when the move creates a setup for `me` that was not there before. */
  function SetupBonus(before: Board, after: Board, me: Player, setups: Setups): (r: int)
    ensures r == 5 <==> !setups(before, me) && setups(after, me)
    ensures setups(before, me) ==> r == 0
    ensures r <= SetupBonusAsWritten(before, after, me, setups)
  {
    if !setups(before, me) && setups(after, me) then 5 else 0
  }

  /** The two differ on a sub-board that already held a setup for `me`: the code as
      written pays the bonus for a setup the move did not create. */
  lemma SetupBonusAsWrittenRewardsOldSetups(before: Board, after: Board, me: Player, setups: Setups)
    requires setups(before, me) && setups(after, me)
    ensures SetupBonusAsWritten(before, after, me, setups) == 5
    ensures SetupBonus(before, after, me, setups) == 0
  {
  }

  /** The per-move parts of a rating, read off the sub-board the move is played in before
      and after the move, and the sub-board it sends the opponent to. */
  datatype Situation = Situation(before: Board, after: Board, next: Board)

  function SituationOf(s: State, m: Move): Situation
    requires OnGrid(m)
  {
    var child := Next(s, m);
    Situation(Micro(s.board, m, false), Micro(child.board, m, false), Micro(child.board, m, true))
  }

  /** The rating of the move's own sub-board, of the sub-board it sends the opponent to,
      the +5 for a setup of mine on the move's sub-board (checked, as the code has it, on
      the board after the move only) and the +3 for blocking one of the enemy's. */
  function BaseRating(t: Situation, me: Player, setups: Setups, winnableBy: WinnableBy): (r: int)
    ensures -19 <= r <= 23
  {
    var other := Other(me);
    EvaluateMicroState(t.after, me, winnableBy) + EvaluateNextPossibilities(t.next, me, setups, winnableBy)
    + SetupBonusAsWritten(t.before, t.after, me, setups)
    + (if setups(t.before, other) && !setups(t.after, other) then 3 else 0)
  }

  /** The bonus and the penalty per board of each of the four lists, for a move whose
      sub-board is winnable by `winnable` before the move. */
  function MyBonus(t: Situation, me: Player, prefs: Preferences, setups: Setups, open: bool): int {
    (if open then 6 else 0)
    + (if |prefs.enemy| == 0 then 3 + (if !setups(t.before, me) && setups(t.after, me) then 3 else 0) else 0)
  }

  function MyPenalty(prefs: Preferences, open: bool): int {
    (if open then 6 else 0) + (if |prefs.enemy| == 0 then 3 else 0)
  }

  function EnemyBonus(t: Situation, me: Player, prefs: Preferences, setups: Setups, open: bool): int {
    var other := Other(me);
    (if open then 6 else 0)
    + (if |prefs.mine| == 0 then
         3 + (if |prefs.enemy| == 1 && setups(t.before, other) && !setups(t.after, other) then 10 else 0)
       else 0)
  }

  function EnemyPenalty(prefs: Preferences, open: bool): int {
    (if open then 6 else 0) + (if |prefs.mine| == 0 then 3 else 0)
  }

  /** Whether the sub-board the move is played in is still winnable by `me`, and by the
      enemy, before the move. */
  function MineOpen(t: Situation, me: Player, winnableBy: WinnableBy): bool {
    var winnable := winnableBy(t.before);
    winnable == me || winnable == Both
  }

  function EnemyOpen(t: Situation, me: Player, winnableBy: WinnableBy): bool {
    var winnable := winnableBy(t.before);
    winnable == Other(me) || winnable == Both
  }

  /** The alignment of the move with the boards in line with two won boards of mine and
      of the enemy's. */
  function PreferredAlignments(t: Situation, m: Move, me: Player, prefs: Preferences, setups: Setups,
                               mineOpen: bool, enemyOpen: bool): int {
    AlignmentSum(m, prefs.mine, MyBonus(t, me, prefs, setups, mineOpen), MyPenalty(prefs, mineOpen), |prefs.mine|)
    + AlignmentSum(m, prefs.enemy, EnemyBonus(t, me, prefs, setups, enemyOpen), EnemyPenalty(prefs, enemyOpen), |prefs.enemy|)
  }

  /** For a side with no board in line with two of its won boards, the alignment of the
      move with the boards in line with one of them. */
  function LessAlignments(m: Move, prefs: Preferences, mineOpen: bool, enemyOpen: bool): int {
    (if |prefs.mine| == 0 then
       AlignmentSum(m, prefs.myLess, if mineOpen then 3 else 0, if mineOpen then 3 else 0, |prefs.myLess|)
     else 0)
    + (if |prefs.enemy| == 0 then
         AlignmentSum(m, prefs.enemyLess, if enemyOpen then 3 else 0, if enemyOpen then 3 else 0, |prefs.enemyLess|)
       else 0)
  }

  /** The secondary rating of a move from what it sees: the base rating, then the
      alignment with the boards in line with two won boards of mine and of the enemy's,
      and, for a side with no such board, with the boards in line with one of its won
      boards. */
  function Rating(t: Situation, m: Move, me: Player, prefs: Preferences, setups: Setups, winnableBy: WinnableBy): int {
    var mineOpen := MineOpen(t, me, winnableBy);
    var enemyOpen := EnemyOpen(t, me, winnableBy);
    BaseRating(t, me, setups, winnableBy)
    + PreferredAlignments(t, m, me, prefs, setups, mineOpen, enemyOpen)
    + LessAlignments(m, prefs, mineOpen, enemyOpen)
  }

  /** The secondary rating of move `m` in state `s` for `me`. */
  function MicroRating(s: State, m: Move, me: Player, setups: Setups, winnableBy: WinnableBy): int
    requires OnGrid(m)
  {
    Rating(SituationOf(s, m), m, me, PreferencesOf(s, me), setups, winnableBy)
  }

  /** Every rating lies above the -999 the tie loop starts from: the base rating is at
      least -19, and each of the at most 24 boards of a list costs at most 9. */
  lemma RatingFloor(t: Situation, m: Move, me: Player, prefs: Preferences, setups: Setups, winnableBy: WinnableBy)
    requires |prefs.mine| <= 24 && |prefs.enemy| <= 24 && |prefs.myLess| <= 24 && |prefs.enemyLess| <= 24
    ensures Rating(t, m, me, prefs, setups, winnableBy) >= -19 - 9 * 24 * 2 - 3 * 24 * 2
  {
  }

  lemma MicroRatingFloor(s: State, m: Move, me: Player, setups: Setups, winnableBy: WinnableBy)
    requires OnGrid(m)
    ensures MicroRating(s, m, me, setups, winnableBy) > -999
  {
    RatingFloor(SituationOf(s, m), m, me, PreferencesOf(s, me), setups, winnableBy);
  }

  /** The loop over one list of preferred boards in EvaluateBestMoves. */
  method AddAlignments(rating: int, move: Move, boards: seq<MacroState>, bonus: int, penalty: int) returns (r: int)
    ensures r == rating + AlignmentSum(move, boards, bonus, penalty, |boards|)
  {
    r := rating;
    for k := 0 to |boards|
      invariant r == rating + AlignmentSum(move, boards, bonus, penalty, k)
    {
      var macroState := boards[k];
      if move.x / 3 == macroState.x && move.y / 3 == macroState.y {
        r := r + bonus;
      } else if move.x % 3 == macroState.x && move.y % 3 == macroState.y {
        r := r - penalty;
      }
    }
  }

  /** The three sub-boards RateMove reads, before and after the move. */
  method ReadSituation(state: State, move: Move) returns (t: Situation)
    requires OnGrid(move)
    ensures t == SituationOf(state, move)
  {
    var child := DoMove(state, move);
    var before := GetMicroState(state, move, false);
    var after := GetMicroState(child, move, false);
    var next := GetMicroState(child, move, true);
    t := Situation(before, after, next);
  }

  /** The rating of one move in the loop of EvaluateBestMoves. */
  method RateMove(state: State, move: Move, me: Player, prefs: Preferences, setups: Setups, winnableBy: WinnableBy)
    returns (microRating: int)
    requires OnGrid(move) && prefs == PreferencesOf(state, me)
    ensures microRating == MicroRating(state, move, me, setups, winnableBy)
  {
    var t := ReadSituation(state, move);
    microRating := RateSituation(t, move, me, prefs, setups, winnableBy);
  }

  /** The additions of RateMove, once the sub-boards are read. */
  method RateSituation(t: Situation, move: Move, me: Player, prefs: Preferences, setups: Setups, winnableBy: WinnableBy)
    returns (microRating: int)
    ensures microRating == Rating(t, move, me, prefs, setups, winnableBy)
  {
    microRating := RateBase(t, me, setups, winnableBy);
    var other := if me == X then O else X;
    var winnable := winnableBy(t.before);
    var mineOpen := winnable == me || winnable == Both;
    var otherOpen := winnable == other || winnable == Both;
    assert mineOpen == MineOpen(t, me, winnableBy) && otherOpen == EnemyOpen(t, me, winnableBy);
    ghost var base := microRating;
    microRating := RatePreferred(microRating, t, move, me, prefs, setups, mineOpen, otherOpen);
    microRating := RateLessPreferred(microRating, move, prefs, mineOpen, otherOpen);
    assert microRating == base + PreferredAlignments(t, move, me, prefs, setups, mineOpen, otherOpen)
      + LessAlignments(move, prefs, mineOpen, otherOpen);
  }

  /** The loops over the boards in line with two won boards. */
  method RatePreferred(rating: int, t: Situation, move: Move, me: Player, prefs: Preferences, setups: Setups,
                       mineOpen: bool, otherOpen: bool) returns (microRating: int)
    ensures microRating == rating + PreferredAlignments(t, move, me, prefs, setups, mineOpen, otherOpen)
  {
    microRating := AddAlignments(rating, move, prefs.mine,
      MyBonus(t, me, prefs, setups, mineOpen), MyPenalty(prefs, mineOpen));
    microRating := AddAlignments(microRating, move, prefs.enemy,
      EnemyBonus(t, me, prefs, setups, otherOpen), EnemyPenalty(prefs, otherOpen));
  }

  /** The loops over the boards in line with one won board, for a side without a better one. */
  method RateLessPreferred(rating: int, move: Move, prefs: Preferences, mineOpen: bool, otherOpen: bool)
    returns (microRating: int)
    ensures microRating == rating + LessAlignments(move, prefs, mineOpen, otherOpen)
  {
    microRating := rating;
    if |prefs.mine| == 0 {
      microRating := AddAlignments(microRating, move, prefs.myLess,
        if mineOpen then 3 else 0, if mineOpen then 3 else 0);
    }
    if |prefs.enemy| == 0 {
      microRating := AddAlignments(microRating, move, prefs.enemyLess,
        if otherOpen then 3 else 0, if otherOpen then 3 else 0);
    }
  }

  /** The first additions of RateMove: the move's own sub-board, the sub-board it sends
      the opponent to, and the setup bonuses. */
  method RateBase(t: Situation, me: Player, setups: Setups, winnableBy: WinnableBy) returns (microRating: int)
    ensures microRating == BaseRating(t, me, setups, winnableBy)
  {
    var other := if me == X then O else X;
    microRating := EvaluateMicroState(t.after, me, winnableBy);
    microRating := microRating + EvaluateNextPossibilities(t.next, me, setups, winnableBy);
    if setups(t.after, me) {
      microRating := microRating + 5;
    }
    if setups(t.before, other) && !setups(t.after, other) {
      microRating := microRating + 3;
    }
  }

  /** The secondary rating in state `s` for `me`, as a function of the move. */
  function RateOf(s: State, me: Player, setups: Setups, winnableBy: WinnableBy): Move --> int {
    m requires OnGrid(m) => MicroRating(s, m, me, setups, winnableBy)
  }

  /** The ratings of the moves from index `i` on, appended to `acc`. */
  function RatingsFrom(rate: Move --> int, moves: seq<Move>, i: nat, acc: seq<int>): (v: seq<int>)
    requires i <= |moves| && forall k | 0 <= k < |moves| :: rate.requires(moves[k])
    ensures |v| == |acc| + |moves| - i
    decreases |moves| - i
  {
    if i == |moves| then acc
    else RatingsFrom(rate, moves, i + 1, acc + [rate(moves[i])])
  }

  /** The secondary ratings of a list of moves, in order. */
  function MicroRatings(s: State, moves: seq<Move>, me: Player, setups: Setups, winnableBy: WinnableBy): (v: seq<int>)
    requires forall k | 0 <= k < |moves| :: OnGrid(moves[k])
    ensures |v| == |moves|
  {
    RatingsFrom(RateOf(s, me, setups, winnableBy), moves, 0, [])
  }

  /** The accumulated ratings are kept in front. */
  lemma {:induction false} RatingsFromKeeps(rate: Move --> int, moves: seq<Move>, i: nat, acc: seq<int>, k: int)
    requires i <= |moves| && forall j | 0 <= j < |moves| :: rate.requires(moves[j])
    requires 0 <= k < |acc|
    ensures RatingsFrom(rate, moves, i, acc)[k] == acc[k]
    decreases |moves| - i
  {
    if i < |moves| {
      RatingsFromKeeps(rate, moves, i + 1, acc + [rate(moves[i])], k);
    }
  }

  /** The rating of move `j` lands at its place behind the accumulated ratings. */
  lemma {:induction false} RatingsFromAt(rate: Move --> int, moves: seq<Move>, i: nat, acc: seq<int>, j: int)
    requires i <= |moves| && forall k | 0 <= k < |moves| :: rate.requires(moves[k])
    requires i <= j < |moves|
    ensures RatingsFrom(rate, moves, i, acc)[|acc| + j - i] == rate(moves[j])
    decreases |moves| - i
  {
    var next := acc + [rate(moves[i])];
    if j == i {
      RatingsFromKeeps(rate, moves, i + 1, next, |acc|);
    } else {
      RatingsFromAt(rate, moves, i + 1, next, j);
    }
  }

  /** RateOf rates a move by MicroRating. */
  lemma RateOfIsMicroRating(s: State, me: Player, setups: Setups, winnableBy: WinnableBy, m: Move)
    requires OnGrid(m)
    ensures RateOf(s, me, setups, winnableBy)(m) == MicroRating(s, m, me, setups, winnableBy)
  {
  }

  /** Every rating in `v` lies above -999, the start of the running best. */
  predicate AboveFloor(v: seq<int>)
  {
    forall k | 0 <= k < |v| :: v[k] > -999
  }

  lemma FloorSnoc(v: seq<int>, r: int)
    requires AboveFloor(v) && r > -999
    ensures AboveFloor(v + [r])
  {
  }

  /** With every rating above -999, so is the whole list. */
  lemma {:induction false} RatingsFromFloor(rate: Move --> int, moves: seq<Move>, i: nat, acc: seq<int>)
    requires i <= |moves| && forall k | 0 <= k < |moves| :: rate.requires(moves[k]) && rate(moves[k]) > -999
    requires AboveFloor(acc)
    ensures AboveFloor(RatingsFrom(rate, moves, i, acc))
    decreases |moves| - i
  {
    if i < |moves| {
      FloorSnoc(acc, rate(moves[i]));
      RatingsFromFloor(rate, moves, i + 1, acc + [rate(moves[i])]);
    }
  }

  /** Every secondary rating of a list lies above -999. */
  lemma MicroRatingsFloor(s: State, moves: seq<Move>, me: Player, setups: Setups, winnableBy: WinnableBy)
    requires forall k | 0 <= k < |moves| :: OnGrid(moves[k])
    ensures AboveFloor(MicroRatings(s, moves, me, setups, winnableBy))
  {
    var rate := RateOf(s, me, setups, winnableBy);
    forall k | 0 <= k < |moves|
      ensures rate(moves[k]) > -999
    {
      MicroRatingFloor(s, moves[k], me, setups, winnableBy);
    }
    RatingsFromFloor(rate, moves, 0, []);
  }

  /** The moves of the highest rating in `v`, in order; none when there are no moves. */
  function KeepBest(moves: seq<Move>, v: seq<int>): seq<Move>
    requires |moves| == |v|
  {
    if |moves| == 0 then [] else UTTTAI.KeepRated(moves, v, UTTTAI.MaxOf(v), |moves|)
  }

  /** No move rated below `x` is kept at rating `x`. */
  lemma {:induction false} KeepRatedAbove(moves: seq<Move>, v: seq<int>, x: int, n: nat)
    requires n <= |moves| == |v|
    requires forall k | 0 <= k < n :: v[k] < x
    ensures UTTTAI.KeepRated(moves, v, x, n) == []
  {
    if n > 0 {
      KeepRatedAbove(moves, v, x, n - 1);
    }
  }

  /** Every move rated `x` among the first `n` is kept. */
  lemma {:induction false} KeepRatedKeeps(moves: seq<Move>, v: seq<int>, x: int, n: nat, k: int)
    requires n <= |moves| == |v|
    requires 0 <= k < n && v[k] == x
    ensures moves[k] in UTTTAI.KeepRated(moves, v, x, n)
  {
    if k < n - 1 {
      KeepRatedKeeps(moves, v, x, n - 1, k);
    }
  }

  /** Keeping the best moves keeps something whenever there are moves; everything kept is
      one of the moves at the highest rating, and every move at that rating is kept. */
  lemma KeepBestMeaning(moves: seq<Move>, v: seq<int>)
    requires |moves| == |v|
    ensures |moves| > 0 <==> |KeepBest(moves, v)| > 0
    ensures forall j | 0 <= j < |KeepBest(moves, v)| ::
      exists k | 0 <= k < |moves| :: moves[k] == KeepBest(moves, v)[j] && forall i | 0 <= i < |v| :: v[i] <= v[k]
    ensures forall k | 0 <= k < |moves| && (forall i | 0 <= i < |v| :: v[i] <= v[k]) :: moves[k] in KeepBest(moves, v)
  {
    if |moves| > 0 {
      var top := UTTTAI.MaxOf(v);
      var r := KeepBest(moves, v);
      var k0 :| 0 <= k0 < |v| && v[k0] == top;
      UTTTAI.KeepRatedNonEmpty(moves, v, top, |moves|, k0);
      forall j | 0 <= j < |r|
        ensures exists k | 0 <= k < |moves| :: moves[k] == r[j] && forall i | 0 <= i < |v| :: v[i] <= v[k]
      {
        var k := UTTTAI.KeptAreRated(moves, v, top, |moves|, j);
      }
      forall k | 0 <= k < |moves| && (forall i | 0 <= i < |v| :: v[i] <= v[k])
        ensures moves[k] in r
      {
        assert v[k] == top;
        KeepRatedKeeps(moves, v, top, |moves|, k);
      }
    }
  }

  /** Appending a move and its rating leaves what is kept among the earlier ones alone. */
  lemma {:induction false} KeepRatedSnoc(moves: seq<Move>, v: seq<int>, m: Move, r: int, x: int, n: nat)
    requires n <= |moves| == |v|
    ensures UTTTAI.KeepRated(moves + [m], v + [r], x, n) == UTTTAI.KeepRated(moves, v, x, n)
  {
    if n > 0 {
      KeepRatedSnoc(moves, v, m, r, x, n - 1);
    }
  }

  /** The state of the tie loop after the moves `moves` with ratings `v`: `highest` is the
      largest rating, the rating at `at`, and `kept` holds the moves rated `highest`. */
  ghost predicate Tracked(moves: seq<Move>, v: seq<int>, highest: int, at: int, kept: seq<Move>)
    requires |moves| == |v|
  {
    && (|v| > 0 ==> 0 <= at < |v| && v[at] == highest)
    && (forall k | 0 <= k < |v| :: v[k] <= highest)
    && kept == UTTTAI.KeepRated(moves, v, highest, |v|)
  }

  /** One step of the tie loop: a higher rating starts the list anew, an equal one joins
      it, a lower one is passed over. */
  lemma TrackStep(moves: seq<Move>, v: seq<int>, highest: int, at: int, kept: seq<Move>, m: Move, r: int)
    requires |moves| == |v|
    requires Tracked(moves, v, highest, at, kept)
    requires |v| == 0 ==> r > highest
    ensures r > highest ==> Tracked(moves + [m], v + [r], r, |v|, [m])
    ensures r == highest ==> Tracked(moves + [m], v + [r], highest, at, kept + [m])
    ensures r < highest ==> Tracked(moves + [m], v + [r], highest, at, kept)
  {
    var n := |v|;
    if r > highest {
      KeepRatedSnoc(moves, v, m, r, r, n);
      KeepRatedAbove(moves, v, r, n);
    } else {
      KeepRatedSnoc(moves, v, m, r, highest, n);
    }
  }

  /** The comparison at the end of each round of the loop of EvaluateBestMoves. */
  method Admit(ghost moves: seq<Move>, ghost v: seq<int>, highest: int, ghost at: int, kept: seq<Move>,
               move: Move, rating: int)
    returns (highest': int, ghost at': int, kept': seq<Move>)
    requires |moves| == |v|
    requires Tracked(moves, v, highest, at, kept)
    requires |v| == 0 ==> rating > highest
    ensures Tracked(moves + [move], v + [rating], highest', at', kept')
  {
    TrackStep(moves, v, highest, at, kept, move, rating);
    highest', at', kept' := highest, at, kept;
    if rating > highest {
      highest' := rating;
      kept' := [move];
      at' := |v|;
    } else if rating == highest {
      kept' := kept + [move];
    }
  }

  /** At the end of the tie loop the kept moves are the best ones. */
  lemma TrackedIsKeepBest(moves: seq<Move>, v: seq<int>, highest: int, at: int, kept: seq<Move>)
    requires 0 < |moves| == |v|
    requires Tracked(moves, v, highest, at, kept)
    ensures kept == KeepBest(moves, v)
  {
    assert highest == UTTTAI.MaxOf(v);
  }

  /** The four GetPreferredMacroBoards calls at the start of EvaluateBestMoves. */
  method GetPreferences(state: State, me: Player) returns (prefs: Preferences)
    ensures prefs == PreferencesOf(state, me)
  {
    var other := if me == X then O else X;
    var myPreferredBoards := GetPreferredMacroBoards(state, me, 2);
    var enemyPreferredBoards := GetPreferredMacroBoards(state, other, 2);
    var myLessPreferredBoards := GetPreferredMacroBoards(state, me, 1);
    var enemyLessPreferredBoards := GetPreferredMacroBoards(state, other, 1);
    prefs := Preferences(myPreferredBoards, enemyPreferredBoards, myLessPreferredBoards, enemyLessPreferredBoards);
  }

  /** The secondary evaluation of the moves the search rated best: each move is rated by
      MicroRating and the moves of the highest rating are kept in order. */
  method EvaluateBestMoves(state: State, bestMoves: seq<Move>, me: Player, setups: Setups, winnableBy: WinnableBy)
    returns (secondaryBestMoves: seq<Move>)
    requires forall k | 0 <= k < |bestMoves| :: OnGrid(bestMoves[k])
    ensures secondaryBestMoves == KeepBest(bestMoves, MicroRatings(state, bestMoves, me, setups, winnableBy))
  {
    var prefs := GetPreferences(state, me);
    var ratings := RateMoves(state, bestMoves, me, prefs, setups, winnableBy);
    MicroRatingsFloor(state, bestMoves, me, setups, winnableBy);
    secondaryBestMoves := KeepHighest(bestMoves, ratings);
  }

  /** The ratings of the moves, in order; each lies above -999. */
  method RateMoves(state: State, bestMoves: seq<Move>, me: Player, prefs: Preferences, setups: Setups,
                   winnableBy: WinnableBy)
    returns (ratings: seq<int>)
    requires forall k | 0 <= k < |bestMoves| :: OnGrid(bestMoves[k])
    requires prefs == PreferencesOf(state, me)
    ensures ratings == MicroRatings(state, bestMoves, me, setups, winnableBy)
  {
    ratings := [];
    for i := 0 to |bestMoves|
      invariant RatingsFrom(RateOf(state, me, setups, winnableBy), bestMoves, i, ratings) ==
        MicroRatings(state, bestMoves, me, setups, winnableBy)
      invariant |ratings| == i
    {
      var move := bestMoves[i];
      var microRating := RateMove(state, move, me, prefs, setups, winnableBy);
      ratings := ratings + [microRating];
    }
  }

  /** The comparison loop of EvaluateBestMoves: the running best starts from -999, a higher
      rating starts the list anew and an equal one joins it. */
  method KeepHighest(bestMoves: seq<Move>, ratings: seq<int>) returns (secondaryBestMoves: seq<Move>)
    requires |ratings| == |bestMoves|
    requires AboveFloor(ratings)
    ensures secondaryBestMoves == KeepBest(bestMoves, ratings)
  {
    var highestMicroRating := -999;
    ghost var at := 0;
    secondaryBestMoves := [];
    for i := 0 to |bestMoves|
      invariant i == 0 ==> highestMicroRating == -999
      invariant Tracked(bestMoves[..i], ratings[..i], highestMicroRating, at, secondaryBestMoves)
    {
      highestMicroRating, at, secondaryBestMoves :=
        Admit(bestMoves[..i], ratings[..i], highestMicroRating, at, secondaryBestMoves, bestMoves[i], ratings[i]);
      PrefixStep(bestMoves, i);
      PrefixStep(ratings, i);
    }
    assert bestMoves[..|bestMoves|] == bestMoves;
    assert ratings[..|ratings|] == ratings;
    if |bestMoves| > 0 {
      TrackedIsKeepBest(bestMoves, ratings, highestMicroRating, at, secondaryBestMoves);
    }
  }

  // ---------------------------------------------------------------------------------
  // The move choice

  /** The rating a pass of depth `depth` gives move `m`: a minimizing search below the
      child, in the window [Loss, Win], with the evaluation seen by `me`. */
  function SearchRating(s: State, m: Move, me: Player, depth: nat): int
    requires OnGrid(m)
  {
    Search(TreeSearch.Rated(EvaluateState, me), ChildStates, Next(s, m), depth, false, Loss, Win).value
  }

  /** Every evaluation lies in the window, so the pruned search returns the plain
      minimax value of the child, which lies in [Loss, Win]. */
  lemma SearchRatingIsMinimax(s: State, m: Move, me: Player, depth: nat)
    requires OnGrid(m)
    ensures SearchRating(s, m, me, depth) ==
      Value(TreeSearch.Rated(EvaluateState, me), ChildStates, Next(s, m), depth, false)
    ensures Loss <= SearchRating(s, m, me, depth) <= Win
  {
    var eval := TreeSearch.Rated(EvaluateState, me);
    forall t: State
      ensures Loss <= eval(t) <= Win
    {
      assert eval(t) == EvaluateState(t, me);
    }
    ExhaustiveWindow(eval, ChildStates, Next(s, m), depth, false, Loss, Win);
    ValueBounded(eval, ChildStates, Next(s, m), depth, false, Loss, Win);
  }

  /** The ratings of the first pass, one per move. */
  function FirstPass(s: State, moves: seq<Move>, me: Player): (v: seq<int>)
    requires forall k | 0 <= k < |moves| :: OnGrid(moves[k])
    ensures |v| == |moves|
  {
    seq(|moves|, k requires 0 <= k < |moves| => SearchRating(s, moves[k], me, InitialSearchDepth))
  }

  /** The first index from `k` on whose rating is at least +1, or |v| when there is none. */
  function FirstWin(v: seq<int>, k: nat): (w: nat)
    requires k <= |v|
    ensures k <= w <= |v|
    ensures w < |v| ==> v[w] >= 1
    ensures forall j | k <= j < w :: v[j] < 1
    decreases |v| - k
  {
    if k == |v| then |v|
    else if v[k] >= 1 then k
    else FirstWin(v, k + 1)
  }

  /** The move findBestMove plays among `moves` with first-pass ratings `v`, `rate` being
      the secondary rating and `pick` the random choice among moves still tied. No move
      when there are none; the only move when there is one; otherwise the first move
      rated at least +1; failing that, the only move of the highest rating, or, when
      several share it, one of those among them of the highest secondary rating. */
  function Decide(moves: seq<Move>, v: seq<int>, rate: Move --> int, pick: nat): Option<Move>
    requires |moves| == |v| && forall k | 0 <= k < |moves| :: rate.requires(moves[k])
  {
    if |moves| == 0 then Nothing
    else if |moves| == 1 then Some(moves[0])
    else
      var w := FirstWin(v, 0);
      if w < |moves| then Some(moves[w])
      else
        KeepBestIn(moves, v, rate);
        Some(PickBest(KeepBest(moves, v), rate, pick))
  }

  /** The tie break among the moves of the highest rating: the only one, or one of those
      of the highest secondary rating among them. */
  function PickBest(best: seq<Move>, rate: Move --> int, pick: nat): Move
    requires |best| > 0 && forall k | 0 <= k < |best| :: rate.requires(best[k])
  {
    if |best| > 1 then
      var u := RatingsFrom(rate, best, 0, []);
      KeepBestMeaning(best, u);
      var secondary := KeepBest(best, u);
      secondary[pick % |secondary|]
    else best[0]
  }

  /** The tie break picks one of the tied moves, and one whose secondary rating is the
      highest among them. */
  lemma PickBestIsTop(best: seq<Move>, rate: Move --> int, pick: nat)
    requires |best| > 0 && forall k | 0 <= k < |best| :: rate.requires(best[k])
    ensures PickBest(best, rate, pick) in best
    ensures forall c | 0 <= c < |best| :: rate(best[c]) <= rate(PickBest(best, rate, pick))
  {
    var m := PickBest(best, rate, pick);
    if |best| > 1 {
      var u := RatingsFrom(rate, best, 0, []);
      var secondary := KeepBest(best, u);
      KeepBestMeaning(best, u);
      var b :| 0 <= b < |best| && best[b] == m && forall i | 0 <= i < |u| :: u[i] <= u[b];
      forall c | 0 <= c < |best|
        ensures rate(best[c]) <= rate(m)
      {
        assert u[c] <= u[b];
        RatedAtMost(rate, best, c, b);
      }
    }
  }

  /** Some move is kept, and every kept move is one of the moves. */
  lemma KeepBestIn(moves: seq<Move>, v: seq<int>, rate: Move --> int)
    requires |moves| == |v| > 0 && forall k | 0 <= k < |moves| :: rate.requires(moves[k])
    ensures |KeepBest(moves, v)| > 0
    ensures forall j | 0 <= j < |KeepBest(moves, v)| ::
      KeepBest(moves, v)[j] in moves && rate.requires(KeepBest(moves, v)[j])
  {
    KeepBestMeaning(moves, v);
  }

  /** The move decided on is one of the moves, and there is one whenever there are moves. */
  lemma DecideIsAmong(moves: seq<Move>, v: seq<int>, rate: Move --> int, pick: nat)
    requires |moves| == |v| && forall k | 0 <= k < |moves| :: rate.requires(moves[k])
    ensures Decide(moves, v, rate, pick) == Nothing <==> moves == []
    ensures Decide(moves, v, rate, pick).Some? ==> Decide(moves, v, rate, pick).value in moves
  {
    if |moves| > 1 && FirstWin(v, 0) == |moves| {
      KeepBestIn(moves, v, rate);
      PickBestIsTop(KeepBest(moves, v), rate, pick);
    }
  }

  /** Among two or more moves, a move rated at least +1 is played when every move before
      it rates below +1. */
  lemma DecideTakesFirstWin(moves: seq<Move>, v: seq<int>, rate: Move --> int, pick: nat, k: int)
    requires |moves| == |v| && forall j | 0 <= j < |moves| :: rate.requires(moves[j])
    requires |moves| > 1 && 0 <= k < |moves| && v[k] >= 1 && forall j | 0 <= j < k :: v[j] < 1
    ensures Decide(moves, v, rate, pick) == Some(moves[k])
  {
    assert FirstWin(v, 0) == k;
  }

  /** Among two or more moves none of which rates +1 or more, the move played has the
      highest rating, and, when several share it, the highest secondary rating among
      them. */
  lemma DecideIsTopRated(moves: seq<Move>, v: seq<int>, rate: Move --> int, pick: nat)
    requires |moves| == |v| && forall k | 0 <= k < |moves| :: rate.requires(moves[k])
    requires |moves| > 1 && forall k | 0 <= k < |moves| :: v[k] < 1
    ensures Decide(moves, v, rate, pick).Some?
    ensures TopRated(moves, v, rate, Decide(moves, v, rate, pick).value)
  {
    assert FirstWin(v, 0) == |moves|;
    var best := KeepBest(moves, v);
    KeepBestMeaning(moves, v);
    KeepBestIn(moves, v, rate);
    var m := PickBest(best, rate, pick);
    PickBestIsTop(best, rate, pick);
    assert Decide(moves, v, rate, pick) == Some(m);
    var c :| 0 <= c < |best| && best[c] == m;
    var b :| 0 <= b < |moves| && moves[b] == best[c] && forall i | 0 <= i < |v| :: v[i] <= v[b];
    forall k | 0 <= k < |moves| && (forall i | 0 <= i < |moves| :: v[i] <= v[k])
      ensures rate(moves[k]) <= rate(moves[b])
    {
      assert moves[k] in best;
    }
  }

  /** `m` is one of the moves of the highest rating in `v` and, when several share that
      rating, one of the highest `rate` among them. */
  ghost predicate TopRated(moves: seq<Move>, v: seq<int>, rate: Move --> int, m: Move)
    requires |moves| == |v| && forall k | 0 <= k < |moves| :: rate.requires(moves[k])
  {
    exists b | 0 <= b < |moves| :: moves[b] == m && (forall j | 0 <= j < |moves| :: v[j] <= v[b]) &&
      (|KeepBest(moves, v)| > 1 ==>
         forall k | 0 <= k < |moves| && (forall j | 0 <= j < |moves| :: v[j] <= v[k]) :: rate(moves[k]) <= rate(moves[b]))
  }

  /** Comparing two entries of a rating list compares the ratings of their moves. */
  lemma RatedAtMost(rate: Move --> int, moves: seq<Move>, c: int, b: int)
    requires forall k | 0 <= k < |moves| :: rate.requires(moves[k])
    requires 0 <= c < |moves| && 0 <= b < |moves|
    requires RatingsFrom(rate, moves, 0, [])[c] <= RatingsFrom(rate, moves, 0, [])[b]
    ensures rate(moves[c]) <= rate(moves[b])
  {
    var empty: seq<int> := [];
    RatingsFromAt(rate, moves, 0, empty, b);
    assert |empty| + b - 0 == b;
    RatingsFromAt(rate, moves, 0, empty, c);
    assert |empty| + c - 0 == c;
  }

  /** Every legal move is on the grid. */
  lemma LegalMovesOnGrid(s: State)
    ensures forall k | 0 <= k < |LegalMoves(s)| :: OnGrid(LegalMoves(s)[k])
  {
    var moves := LegalMoves(s);
    assert forall k | 0 <= k < |moves| :: moves[k] in moves;
  }

  /** The move findBestMove plays in state `s`, by the first-pass ratings of the legal
      moves and the secondary rating for the player to move. No move when there are no
      legal moves (the code then reads an empty rating list). */
  function Choice(s: State, pick: nat, setups: Setups, winnableBy: WinnableBy): Option<Move>
  {
    var moves := LegalMoves(s);
    var me := CurrentPlayer(s);
    LegalMovesOnGrid(s);
    Decide(moves, FirstPass(s, moves, me), RateOf(s, me, setups, winnableBy), pick)
  }

  /** findBestMove plays nothing exactly when there is no legal move, and otherwise a
      legal move. */
  lemma ChoiceIsLegal(s: State, pick: nat, setups: Setups, winnableBy: WinnableBy)
    ensures Choice(s, pick, setups, winnableBy) == Nothing <==> LegalMoves(s) == []
    ensures Choice(s, pick, setups, winnableBy).Some? ==> Choice(s, pick, setups, winnableBy).value in LegalMoves(s)
  {
    var moves := LegalMoves(s);
    var me := CurrentPlayer(s);
    LegalMovesOnGrid(s);
    DecideIsAmong(moves, FirstPass(s, moves, me), RateOf(s, me, setups, winnableBy), pick);
  }

  /** With two or more legal moves, a move whose first-pass rating is at least +1 is
      played when every move before it rates below +1. */
  lemma ChoiceTakesFirstWin(s: State, pick: nat, setups: Setups, winnableBy: WinnableBy, k: int)
    requires |LegalMoves(s)| > 1 && 0 <= k < |LegalMoves(s)|
    requires forall j | 0 <= j < |LegalMoves(s)| :: OnGrid(LegalMoves(s)[j])
    requires var v := FirstPass(s, LegalMoves(s), CurrentPlayer(s));
      v[k] >= 1 && forall j | 0 <= j < k :: v[j] < 1
    ensures Choice(s, pick, setups, winnableBy) == Some(LegalMoves(s)[k])
  {
    var moves := LegalMoves(s);
    var me := CurrentPlayer(s);
    DecideTakesFirstWin(moves, FirstPass(s, moves, me), RateOf(s, me, setups, winnableBy), pick, k);
  }

  /** With two or more legal moves none of which rates +1 or more in the first pass, the
      move played has the highest first-pass rating and, when several share it, the
      highest secondary rating among them. */
  lemma ChoiceIsTopRated(s: State, pick: nat, setups: Setups, winnableBy: WinnableBy)
    requires |LegalMoves(s)| > 1
    requires forall j | 0 <= j < |LegalMoves(s)| :: OnGrid(LegalMoves(s)[j])
    requires forall k | 0 <= k < |LegalMoves(s)| :: FirstPass(s, LegalMoves(s), CurrentPlayer(s))[k] < 1
    ensures Choice(s, pick, setups, winnableBy).Some?
    ensures TopRated(LegalMoves(s), FirstPass(s, LegalMoves(s), CurrentPlayer(s)),
                     RateOf(s, CurrentPlayer(s), setups, winnableBy), Choice(s, pick, setups, winnableBy).value)
  {
    var moves := LegalMoves(s);
    var me := CurrentPlayer(s);
    RateOfApplies(s, me, setups, winnableBy, moves);
    ChoiceIsDecide(s, pick, setups, winnableBy);
    DecideIsTopRated(moves, FirstPass(s, moves, me), RateOf(s, me, setups, winnableBy), pick);
  }

  /** The secondary rating applies to every move on the grid. */
  lemma RateOfApplies(s: State, me: Player, setups: Setups, winnableBy: WinnableBy, moves: seq<Move>)
    requires forall j | 0 <= j < |moves| :: OnGrid(moves[j])
    ensures forall j | 0 <= j < |moves| :: RateOf(s, me, setups, winnableBy).requires(moves[j])
  {
  }

  /** Choice is Decide on the legal moves and their first-pass ratings. */
  lemma ChoiceIsDecide(s: State, pick: nat, setups: Setups, winnableBy: WinnableBy)
    requires forall j | 0 <= j < |LegalMoves(s)| :: OnGrid(LegalMoves(s)[j])
    ensures Choice(s, pick, setups, winnableBy) ==
      Decide(LegalMoves(s), FirstPass(s, LegalMoves(s), CurrentPlayer(s)),
             RateOf(s, CurrentPlayer(s), setups, winnableBy), pick)
  {
  }

  /** The first move of a pass tied for the best so far. */
  lemma TrackFirst(moves: seq<Move>, v: seq<int>)
    requires 0 < |moves| == |v|
    ensures Tracked(moves[..1], v[..1], v[0], 0, [moves[0]])
  {
    assert UTTTAI.KeepRated(moves[..1], v[..1], v[0], 0) == [];
  }

  /** The tie loop of findBestMove: the running best starts from the first rating, a
      higher rating starts the list anew and an equal one joins it. Only the first
      |moves| ratings are read. */
  method KeepTopRated(moves: seq<Move>, moveRatings: seq<int>) returns (bestMoves: seq<Move>)
    requires 0 < |moves| <= |moveRatings|
    ensures bestMoves == KeepBest(moves, moveRatings[..|moves|])
  {
    ghost var v := moveRatings[..|moves|];
    var highestRating := moveRatings[0];
    ghost var at := 0;
    bestMoves := [];
    for i := 0 to |moves|
      invariant i == 0 ==> highestRating == v[0] && at == 0 && bestMoves == []
      invariant i > 0 ==> Tracked(moves[..i], v[..i], highestRating, at, bestMoves)
    {
      if i > 0 {
        TrackStep(moves[..i], v[..i], highestRating, at, bestMoves, moves[i], v[i]);
        PrefixStep(moves, i);
        PrefixStep(v, i);
      }
      assert moveRatings[i] == v[i];
      if moveRatings[i] > highestRating {
        highestRating := moveRatings[i];
        bestMoves := [moves[i]];
        at := i;
      } else if moveRatings[i] == highestRating {
        bestMoves := bestMoves + [moves[i]];
      }
      if i == 0 {
        assert bestMoves == [moves[0]];
        TrackFirst(moves, v);
      }
    }
    assert moves[..|moves|] == moves;
    assert v[..|v|] == v;
    TrackedIsKeepBest(moves, v, highestRating, at, bestMoves);
  }

  /** After the first pass: its ratings `v` lead `moveRatings`, and none is +1 or more. */
  ghost predicate Settled(moveRatings: seq<int>, v: seq<int>) {
    |v| <= |moveRatings| && moveRatings[..|v|] == v && FirstWin(v, 0) == |v|
  }

  /** Appending leaves a prefix alone. */
  lemma PrefixKept<T>(s: seq<T>, x: T, n: int)
    requires 0 <= n <= |s|
    ensures (s + [x])[..n] == s[..n]
  {
  }

  /** The search below the child of one move, as the pass loop runs it. */
  method RateChild(state: State, move: Move, me: Player, searchDepth: nat) returns (rating: int, full: bool)
    requires OnGrid(move)
    ensures rating == SearchRating(state, move, me, searchDepth)
    ensures full == Search(TreeSearch.Rated(EvaluateState, me), ChildStates, Next(state, move), searchDepth,
                           false, Loss, Win).full
  {
    var child := DoMove(state, move);
    var fullMoveTreeEvaluated := true;
    rating, full := TreeSearch.MiniMaxAB(child, EvaluateState, ChildStates, searchDepth, false, me, Loss, Win,
                                         fullMoveTreeEvaluated);
  }

  /** One pass of findBestMove: every child is searched at `searchDepth` and its rating
      appended. The win check reads `moveRatings[i]`, the first pass's rating, so the first
      pass returns its first move rated +1 or more, and a later pass never returns early.
      Without an early return the first pass's ratings lead the list. */
  method SearchPass(state: State, moves: seq<Move>, me: Player, searchDepth: nat, moveRatings: seq<int>)
    returns (win: Option<Move>, ratings: seq<int>, searchTreeExhausted: bool)
    requires moves == LegalMoves(state)
    requires (moveRatings == [] && searchDepth == InitialSearchDepth) || Settled(moveRatings, FirstPass(state, moves, me))
    ensures var v := FirstPass(state, moves, me);
      moveRatings == [] && searchDepth == InitialSearchDepth ==>
        win == (if FirstWin(v, 0) < |moves| then Some(moves[FirstWin(v, 0)]) else Nothing)
    ensures Settled(moveRatings, FirstPass(state, moves, me)) ==> win == Nothing
    ensures win == Nothing ==> Settled(ratings, FirstPass(state, moves, me))
  {
    ghost var v := FirstPass(state, moves, me);
    ghost var first := moveRatings == [] && searchDepth == InitialSearchDepth;
    LegalMovesOnGrid(state);
    ratings := moveRatings;
    searchTreeExhausted := true;
    for i := 0 to |moves|
      invariant first ==> ratings == v[..i] && FirstWin(v, i) == FirstWin(v, 0)
      invariant !first ==> Settled(ratings, v)
    {
      var rating, fullMoveTreeEvaluated := RateChild(state, moves[i], me, searchDepth);
      if first {
        assert rating == v[i];
        PrefixStep(v, i);
      } else {
        PrefixKept(ratings, rating, |v|);
      }
      ratings := ratings + [rating];
      assert ratings[i] == v[i];
      if ratings[i] >= 1 {
        return Some(moves[i]), ratings, searchTreeExhausted;
      }
      if !fullMoveTreeEvaluated {
        searchTreeExhausted := false;
      }
    }
    if first {
      assert v[..|moves|] == v;
    }
    win := Nothing;
  }

  /** The passes of findBestMove. Each pass searches one level deeper than the last and
      appends its ratings to `moveRatings`, which is never cleared. A pass that searched
      every child to the end stops the passes; otherwise the clock allows `clockPasses`
      passes in all (at least one). */
  method SearchPasses(state: State, moves: seq<Move>, me: Player, clockPasses: nat)
    returns (win: Option<Move>, moveRatings: seq<int>)
    requires moves == LegalMoves(state)
    ensures var v := FirstPass(state, moves, me);
      win == (if FirstWin(v, 0) < |moves| then Some(moves[FirstWin(v, 0)]) else Nothing)
    ensures win == Nothing ==> |moves| <= |moveRatings| && moveRatings[..|moves|] == FirstPass(state, moves, me)
  {
    ghost var v := FirstPass(state, moves, me);
    moveRatings := [];
    var searchDepth: nat := InitialSearchDepth;
    var pass := 0;
    while pass == 0 || pass < clockPasses
      invariant pass == 0 ==> moveRatings == [] && searchDepth == InitialSearchDepth
      invariant pass > 0 ==> Settled(moveRatings, v)
      invariant pass <= if clockPasses == 0 then 1 else clockPasses
      decreases (if clockPasses == 0 then 1 else clockPasses) - pass
    {
      var found, searchTreeExhausted;
      found, moveRatings, searchTreeExhausted := SearchPass(state, moves, me, searchDepth, moveRatings);
      if found.Some? {
        return found, moveRatings;
      }
      pass := pass + 1;
      if searchTreeExhausted {
        break;
      }
      searchDepth := searchDepth + 1;
    }
    win := Nothing;
  }

  /** findBestMove: the legal moves, the passes, the moves tied for the highest rating of
      the first pass, and the secondary evaluation among them. `clockPasses` stands for
      the clock that ends the passes and `pick` for the random choice. */
  method FindBestMove(state: State, clockPasses: nat, pick: nat, setups: Setups, winnableBy: WinnableBy)
    returns (bestMove: Option<Move>)
    ensures bestMove == Choice(state, pick, setups, winnableBy)
  {
    var me := GetCurrentPlayer(state);
    var moves := GetMoves(state);
    LegalMovesOnGrid(state);
    if |moves| == 0 {
      return Nothing;
    }
    if |moves| == 1 {
      return Some(moves[0]);
    }
    var win, moveRatings := SearchPasses(state, moves, me, clockPasses);
    if win.Some? {
      return win;
    }
    var m := SelectAfterSearch(state, moves, moveRatings, FirstPass(state, moves, me), me, pick, setups, winnableBy);
    bestMove := Some(m);
  }

  /** After the passes found no winning move: the moves of the highest first-pass rating,
      then the tie break among them. */
  method SelectAfterSearch(state: State, moves: seq<Move>, moveRatings: seq<int>, ghost v: seq<int>, me: Player,
                           pick: nat, setups: Setups, winnableBy: WinnableBy)
    returns (bestMove: Move)
    requires |moves| == |v| > 1 && forall k | 0 <= k < |moves| :: OnGrid(moves[k])
    requires Settled(moveRatings, v)
    ensures Some(bestMove) == Decide(moves, v, RateOf(state, me, setups, winnableBy), pick)
  {
    ghost var rate := RateOf(state, me, setups, winnableBy);
    var bestMoves := KeepTopRated(moves, moveRatings);
    assert bestMoves == KeepBest(moves, v);
    KeepBestIn(moves, v, rate);
    bestMove := ChooseAmongBest(state, bestMoves, me, pick, setups, winnableBy);
  }

  /** The end of findBestMove: the only move of the highest first-pass rating, or the
      secondary evaluation among several and, when that still leaves several, the random
      pick among them. */
  method ChooseAmongBest(state: State, bestMoves: seq<Move>, me: Player, pick: nat, setups: Setups,
                         winnableBy: WinnableBy)
    returns (bestMove: Move)
    requires |bestMoves| > 0 && forall k | 0 <= k < |bestMoves| :: OnGrid(bestMoves[k])
    ensures bestMove == PickBest(bestMoves, RateOf(state, me, setups, winnableBy), pick)
  {
    if |bestMoves| > 1 {
      var secondaryBestMoves := EvaluateBestMoves(state, bestMoves, me, setups, winnableBy);
      KeepBestMeaning(bestMoves, MicroRatings(state, bestMoves, me, setups, winnableBy));
      if |secondaryBestMoves| > 1 {
        bestMove := secondaryBestMoves[pick % |secondaryBestMoves|];
      } else {
        assert pick % 1 == 0;
        bestMove := secondaryBestMoves[0];
      }
    } else {
      bestMove := bestMoves[0];
    }
  }


}
