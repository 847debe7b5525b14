/** Sub-board tactics (TTTAI.cpp): the cells that complete a line, the cells that
    extend a lone mark on an otherwise empty line, and the per-move score built from them. */
module TTTAI {
  import opened Common
  import TTT
  import opened GameState

  /** The other two cells of line `l` hold `p`, and `c` is the remaining cell. */
  predicate Completes(b: Board, l: Line, p: Player, c: int) {
    (c == l.c && b[l.a] == p && b[l.b] == p)
    || (c == l.a && b[l.b] == p && b[l.c] == p)
    || (c == l.b && b[l.a] == p && b[l.c] == p)
  }

  /** What one line contributes to the winning moves: the cell it lacks when two of its
      cells hold `p`, the pairs tried in the order (a,b), (b,c), (a,c). */
  function LineCompletion(b: Board, l: Line, p: Player): (r: seq<int>)
    ensures |r| <= 1
    ensures forall k | 0 <= k < |r| :: Completes(b, l, p, r[k])
    ensures forall c | Completes(b, l, p, c) && b[c] != p :: r == [c]
  {
    if b[l.a] == p && b[l.b] == p then [l.c]
    else if b[l.b] == p && b[l.c] == p then [l.a]
    else if b[l.a] == p && b[l.c] == p then [l.b]
    else []
  }

  /** The winning moves contributed by the first `n` lines, in line order. */
  function WinningMovesBelow(b: Board, p: Player, n: nat): (r: seq<int>)
    requires n <= 8
    ensures |r| <= n
  {
    if n == 0 then [] else WinningMovesBelow(b, p, n - 1) + LineCompletion(b, Wins[n - 1], p)
  }

  /** Cell `c` completes one of the first `n` lines for `p`. */
  predicate CompletesSome(b: Board, p: Player, n: nat, c: int)
    requires n <= 8
  {
    exists w | 0 <= w < n :: Completes(b, Wins[w], p, c)
  }

  /** Every winning move completes one of the first `n` lines, and every empty-of-`p`
      cell that completes one of them is among the winning moves. */
  lemma {:induction false} WinningMovesMeaning(b: Board, p: Player, n: nat)
    requires n <= 8
    ensures forall k | 0 <= k < |WinningMovesBelow(b, p, n)| :: CompletesSome(b, p, n, WinningMovesBelow(b, p, n)[k])
    ensures forall w, c | 0 <= w < n && Completes(b, Wins[w], p, c) && b[c] != p :: c in WinningMovesBelow(b, p, n)
  {
    if n > 0 {
      WinningMovesMeaning(b, p, n - 1);
      var prev := WinningMovesBelow(b, p, n - 1);
      var here := LineCompletion(b, Wins[n - 1], p);
      var r := prev + here;
      forall k | 0 <= k < |r|
        ensures CompletesSome(b, p, n, r[k])
      {
        if k < |prev| {
          assert r[k] == prev[k];
          assert CompletesSome(b, p, n - 1, prev[k]);
          var w :| 0 <= w < n - 1 && Completes(b, Wins[w], p, prev[k]);
          assert 0 <= w < n;
        } else {
          assert r[k] == here[k - |prev|];
          assert Completes(b, Wins[n - 1], p, r[k]);
        }
      }
      forall w, c | 0 <= w < n && Completes(b, Wins[w], p, c) && b[c] != p
        ensures c in r
      {
        if w < n - 1 {
          assert c in prev;
        } else {
          assert here == [c];
          assert r[|prev|] == c;
        }
      }
    }
  }

  method GetWinningMoves(board: Board, p: Player) returns (moves: seq<int>)
    ensures moves == WinningMovesBelow(board, p, 8)
    ensures |moves| <= 8
    ensures forall c :: c in moves ==> exists w | 0 <= w < 8 :: Completes(board, Wins[w], p, c)
  {
    moves := [];
    var w := 0;
    while w < 8
      invariant 0 <= w <= 8
      invariant moves == WinningMovesBelow(board, p, w)
    {
      var win := Wins[w];
      ghost var before := moves;
      if board[win.a] == p && board[win.b] == p {
        moves := moves + [win.c];
      } else if board[win.b] == p && board[win.c] == p {
        moves := moves + [win.a];
      } else if board[win.a] == p && board[win.c] == p {
        moves := moves + [win.b];
      }
      assert moves == before + LineCompletion(board, win, p);
      w := w + 1;
    }
    WinningMovesMeaning(board, p, 8);
  }

  /** Line `l` holds exactly one `p` and its other two cells are empty, and `c` is one of the empty ones. */
  predicate Extends(b: Board, l: Line, p: Player, c: int) {
    OnLine(l, c) && b[c] == None && LineCount(b, l, p) >= 1 && LineCount(b, l, None) >= 2
  }

  /** The two empty cells `y` and `z` beside a lone `p` in cell `x`, or nothing. */
  function SetupAround(b: Board, x: Cell, y: Cell, z: Cell, p: Player): seq<int> {
    if b[x] == p && b[y] == None && b[z] == None then [y, z] else []
  }

  /** What one line contributes to the setup moves: the two empty cells beside a lone
      `p`, once for each of the three positions `p` may hold. */
  function LineSetup(b: Board, l: Line, p: Player): seq<int> {
    SetupAround(b, l.a, l.b, l.c, p) + SetupAround(b, l.b, l.a, l.c, p) + SetupAround(b, l.c, l.b, l.a, p)
  }

  /** A line contributes exactly the empty cells of a line holding one `p` and two empty
      cells, both of them, and for a real player only those two. */
  lemma LineSetupMeaning(b: Board, l: Line, p: Player)
    ensures var r := LineSetup(b, l, p);
      && (p != None ==> |r| <= 2)
      && (forall k | 0 <= k < |r| :: Extends(b, l, p, r[k]))
      && (LineCount(b, l, p) == 1 && LineCount(b, l, None) == 2 ==> forall c | OnLine(l, c) && b[c] == None :: c in r)
  {
    var r := LineSetup(b, l, p);
    var x := SetupAround(b, l.a, l.b, l.c, p);
    var y := SetupAround(b, l.b, l.a, l.c, p);
    var z := SetupAround(b, l.c, l.b, l.a, p);
    assert r == x + y + z;
    AroundExtends(b, l, l.a, l.b, l.c, p);
    AroundExtends(b, l, l.b, l.a, l.c, p);
    AroundExtends(b, l, l.c, l.b, l.a, p);
    forall k | 0 <= k < |r|
      ensures Extends(b, l, p, r[k])
    {
      if k < |x| { assert r[k] == x[k]; }
      else if k < |x| + |y| { assert r[k] == y[k - |x|]; }
      else { assert r[k] == z[k - |x| - |y|]; }
    }
    if LineCount(b, l, p) == 1 && LineCount(b, l, None) == 2 {
      forall c | OnLine(l, c) && b[c] == None
        ensures c in r
      {
        if b[l.a] == p { assert x == [l.b, l.c]; assert x <= r; }
        else if b[l.b] == p { assert y == [l.a, l.c]; assert r[|x|..|x| + 2] == y; }
        else { assert z == [l.b, l.a]; assert r[|x| + |y|..] == z; }
      }
    }
  }

  /** The cells one lone-mark pattern yields extend the line. */
  lemma AroundExtends(b: Board, l: Line, x: Cell, y: Cell, z: Cell, p: Player)
    requires (x, y, z) == (l.a, l.b, l.c) || (x, y, z) == (l.b, l.a, l.c) || (x, y, z) == (l.c, l.b, l.a)
    ensures var s := SetupAround(b, x, y, z, p);
      (p != None ==> |s| == 0 || (b[x] == p && b[y] == None && b[z] == None))
      && forall k | 0 <= k < |s| :: Extends(b, l, p, s[k])
  {
  }

  /** A line contributes a pair of empty cells or nothing, never more than one pair for a
      real player. */
  lemma LineSetupShape(b: Board, l: Line, p: Player)
    ensures var r := LineSetup(b, l, p);
      |r| % 2 == 0 && (p != None ==> |r| <= 2) && EmptyCells(b, r)
  {
  }

  /** The setup moves contributed by the first `n` lines, in line order. */
  function SetupMovesBelow(b: Board, p: Player, n: nat): seq<int>
    requires n <= 8
  {
    if n == 0 then []
    else
      var l := Wins[n - 1];
      SetupMovesBelow(b, p, n - 1) + SetupAround(b, l.a, l.b, l.c, p) + SetupAround(b, l.b, l.a, l.c, p)
        + SetupAround(b, l.c, l.b, l.a, p)
  }

  /** Every entry of `s` is an empty cell of `b`. */
  predicate EmptyCells(b: Board, s: seq<int>) {
    forall k | 0 <= k < |s| :: 0 <= s[k] < 9 && b[s[k]] == None
  }

  lemma EmptyCellsConcat(b: Board, xs: seq<int>, ys: seq<int>)
    requires EmptyCells(b, xs) && EmptyCells(b, ys)
    ensures EmptyCells(b, xs + ys)
  {
    forall k | 0 <= k < |xs + ys|
      ensures 0 <= (xs + ys)[k] < 9 && b[(xs + ys)[k]] == None
    {
      if k >= |xs| {
        assert (xs + ys)[k] == ys[k - |xs|];
      }
    }
  }

  /** The setup moves come in pairs, two at most per line when `p` is a player, and each
      is an empty cell. */
  lemma {:induction false} SetupMovesAreEmptyPairs(b: Board, p: Player, n: nat)
    requires n <= 8
    ensures var r := SetupMovesBelow(b, p, n);
      |r| % 2 == 0 && (p != None ==> |r| <= 2 * n) && EmptyCells(b, r)
  {
    if n > 0 {
      SetupMovesAreEmptyPairs(b, p, n - 1);
      SetupMovesByLine(b, p, n - 1);
      var prev := SetupMovesBelow(b, p, n - 1);
      var here := LineSetup(b, Wins[n - 1], p);
      LineSetupShape(b, Wins[n - 1], p);
      EvenSum(|prev|, |here|);
      EmptyCellsConcat(b, prev, here);
    }
  }

  lemma EvenSum(x: int, y: int)
    requires x % 2 == 0 && y % 2 == 0
    ensures (x + y) % 2 == 0
  {
  }

  /** The setup moves below `n + 1` lines are those below `n` followed by what line `n` contributes. */
  lemma {:induction false} SetupMovesByLine(b: Board, p: Player, n: nat)
    requires n < 8
    ensures SetupMovesBelow(b, p, n + 1) == SetupMovesBelow(b, p, n) + LineSetup(b, Wins[n], p)
  {
    var l := Wins[n];
    var prev := SetupMovesBelow(b, p, n);
    var sa := SetupAround(b, l.a, l.b, l.c, p);
    var sb := SetupAround(b, l.b, l.a, l.c, p);
    var sc := SetupAround(b, l.c, l.b, l.a, p);
    assert prev + sa + sb == prev + (sa + sb);
    assert prev + (sa + sb) + sc == prev + (sa + sb + sc);
  }

  method GetSetupMoves(board: Board, p: Player) returns (moves: seq<int>)
    ensures moves == SetupMovesBelow(board, p, 8)
    ensures |moves| % 2 == 0 && (p != None ==> |moves| <= 16)
    ensures EmptyCells(board, moves)
  {
    moves := [];
    var w := 0;
    while w < 8
      invariant 0 <= w <= 8
      invariant moves == SetupMovesBelow(board, p, w)
    {
      var win := Wins[w];
      ghost var before := moves;
      if board[win.a] == p && board[win.b] == None && board[win.c] == None {
        moves := moves + [win.b, win.c];
      }
      assert moves == before + SetupAround(board, win.a, win.b, win.c, p);
      ghost var first := moves;
      if board[win.b] == p && board[win.a] == None && board[win.c] == None {
        moves := moves + [win.a, win.c];
      }
      assert moves == first + SetupAround(board, win.b, win.a, win.c, p);
      ghost var second := moves;
      if board[win.c] == p && board[win.b] == None && board[win.a] == None {
        moves := moves + [win.b, win.a];
      }
      assert moves == second + SetupAround(board, win.c, win.b, win.a, p);
      w := w + 1;
    }
    SetupMovesAreEmptyPairs(board, p, 8);
  }

  /** How often `x` occurs in `s`. */
  function Count(s: seq<int>, x: int): nat {
    multiset(s)[x]
  }

  /** The score of a move inside its own sub-board: 100 for completing a line of the
      player's, 0 for any other move while such a completion exists, and otherwise how
      many of the player's and the opponent's setups the cell takes part in plus twice
      the opponent's completions it blocks. */
  function RateMove(assessed: AssessedState, move: Move): int
    requires OnGrid(move)
  {
    var board := assessed.state.subBoards[MacroIndex(move)];
    var subMove := CellIndex(move);
    var winningMoves := WinningMovesBelow(board, assessed.state.player, 8);
    var defendingMoves := WinningMovesBelow(board, assessed.state.opponent, 8);
    var playerSetupMoves := SetupMovesBelow(board, assessed.state.player, 8);
    var otherSetupMoves := SetupMovesBelow(board, assessed.state.opponent, 8);
    var score := if subMove in winningMoves then 100 else 0;
    if winningMoves == [] then
      score + Count(playerSetupMoves, subMove) + Count(otherSetupMoves, subMove) + 2 * Count(defendingMoves, subMove)
    else score
  }

  lemma {:induction false} CountBound(s: seq<int>, x: int)
    ensures Count(s, x) <= |s|
  {
    if s != [] {
      CountBound(s[1..], x);
      assert s == [s[0]] + s[1..];
    }
  }

  /** For real players the score is 100 exactly on the player's completing cells, 0 for
      other moves while the player has a completion on the board, and otherwise lies in 0..48. */
  lemma {:induction false} RateMoveCases(assessed: AssessedState, move: Move)
    requires OnGrid(move)
    requires assessed.state.player in {X, O} && assessed.state.opponent in {X, O}
    ensures var board := assessed.state.subBoards[MacroIndex(move)];
      var wins := WinningMovesBelow(board, assessed.state.player, 8);
      && (RateMove(assessed, move) == 100 <==> CellIndex(move) in wins)
      && (wins != [] && CellIndex(move) !in wins ==> RateMove(assessed, move) == 0)
      && (wins == [] ==> 0 <= RateMove(assessed, move) <= 48)
  {
    var board := assessed.state.subBoards[MacroIndex(move)];
    var c := CellIndex(move);
    CountBound(SetupMovesBelow(board, assessed.state.player, 8), c);
    CountBound(SetupMovesBelow(board, assessed.state.opponent, 8), c);
    SetupMovesAreEmptyPairs(board, assessed.state.player, 8);
    SetupMovesAreEmptyPairs(board, assessed.state.opponent, 8);
    CountBound(WinningMovesBelow(board, assessed.state.opponent, 8), c);
  }
}
