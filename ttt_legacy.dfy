/** Sub-board rules of the older generation (ttt.cpp). Its winner, legal cells, copy
    with one cell set and occupied cells are written exactly as in TTT.cpp and are the
    members of module TTT; what differs is below: whose turn it is on a plain board, the
    children of a board, and a winnability check that reports None on a won board. */
module LegacyTTT {
  import opened Common
  import TTT

  /** How many cells of the board hold `p`. */
  function Marks(b: seq<Player>, p: Player): nat {
    multiset(b)[p]
  }

  method PlayerCount(b: Board, p: Player) returns (c: int)
    ensures c == Marks(b, p)
    ensures c == |TTT.Cells(b, p)|
  {
    c := 0;
    var i := 0;
    while i < 9
      invariant 0 <= i <= 9
      invariant c == Marks(b[..i], p)
    {
      assert b[..i + 1] == b[..i] + [b[i]];
      if b[i] == p {
        c := c + 1;
      }
      i := i + 1;
    }
    assert b[..9] == b;
    MarksAreCells(b, p, 9);
  }

  /** Counting the marks of a prefix agrees with the list of occupied cells below its end. */
  lemma {:induction false} MarksAreCells(b: Board, p: Player, n: nat)
    requires n <= 9
    ensures Marks(b[..n], p) == |TTT.CellsBelow(b, p, n)|
  {
    if n > 0 {
      MarksAreCells(b, p, n - 1);
      MarksPrefixStep(b, p, n);
      CellsBelowStep(b, p, n);
    }
  }

  /** Extending a prefix by one cell adds one mark exactly when that cell holds `p`. */
  lemma MarksPrefixStep(b: Board, p: Player, n: nat)
    requires 0 < n <= 9
    ensures Marks(b[..n], p) == Marks(b[..n - 1], p) + (if b[n - 1] == p then 1 else 0)
  {
    assert b[..n] == b[..n - 1] + [b[n - 1]];
    assert multiset(b[..n]) == multiset(b[..n - 1]) + multiset{b[n - 1]};
  }

  /** Raising the bound by one lists one more cell exactly when that cell holds `p`. */
  lemma CellsBelowStep(b: Board, p: Player, n: nat)
    requires 0 < n <= 9
    ensures |TTT.CellsBelow(b, p, n)| == |TTT.CellsBelow(b, p, n - 1)| + (if b[n - 1] == p then 1 else 0)
  {
  }

  /** X and O together fill the board exactly when no cell holds anything else. */
  lemma {:induction false} MarksFillBoard(b: seq<Player>)
    ensures Marks(b, X) + Marks(b, O) <= |b|
    ensures Marks(b, X) + Marks(b, O) == |b| <==> forall i | 0 <= i < |b| :: b[i] == X || b[i] == O
  {
    if b != [] {
      var last := |b| - 1;
      MarksFillBoard(b[..last]);
      assert b == b[..last] + [b[last]];
      if Marks(b, X) + Marks(b, O) == |b| {
        forall i | 0 <= i < |b| ensures b[i] == X || b[i] == O {
          if i < last {
            assert b[..last][i] == b[i];
          }
        }
      }
    }
  }

  /** Whose turn it is on a plain board: nobody when X and O fill it, O when X has more
      marks, X otherwise. */
  function GetPlayer(b: Board): (r: Player)
    ensures r == None <==> forall i | 0 <= i < 9 :: b[i] == X || b[i] == O
    ensures r != None ==> (r == O <==> Marks(b, X) > Marks(b, O))
  {
    MarksFillBoard(b);
    var x := Marks(b, X);
    var o := Marks(b, O);
    if x + o == 9 then None
    else if x - o > 0 then O
    else X
  }

  /** The boards reached by `turn` playing each of the first `n` listed cells, in list order. */
  function ChildrenBelow(b: Board, moves: seq<int>, turn: Player, n: nat): seq<Board>
    requires n <= |moves|
    requires forall k | 0 <= k < |moves| :: 0 <= moves[k] < 9
  {
    if n == 0 then [] else ChildrenBelow(b, moves, turn, n - 1) + [TTT.DoMove(b, moves[n - 1], turn)]
  }

  /** Child `k` is the board with `turn` written into cell `moves[k]` and nothing else changed. */
  lemma {:induction false} ChildrenBelowMeaning(b: Board, moves: seq<int>, turn: Player, n: nat)
    requires n <= |moves|
    requires forall k | 0 <= k < |moves| :: 0 <= moves[k] < 9
    ensures |ChildrenBelow(b, moves, turn, n)| == n
    ensures forall k | 0 <= k < n :: ChildrenBelow(b, moves, turn, n)[k] == TTT.DoMove(b, moves[k], turn)
  {
    if n > 0 {
      ChildrenBelowMeaning(b, moves, turn, n - 1);
    }
  }

  method GetChildren(b: Board) returns (children: seq<Board>)
    ensures |children| == |TTT.Moves(b)|
    ensures forall k | 0 <= k < |children| ::
      children[k][TTT.Moves(b)[k]] == GetPlayer(b)
      && forall i | 0 <= i < 9 && i != TTT.Moves(b)[k] :: children[k][i] == b[i]
  {
    var moves := TTT.GetMoves(b);
    var turn := GetPlayer(b);
    assert forall k | 0 <= k < |moves| :: 0 <= moves[k] < 9 by {
      forall k | 0 <= k < |moves| ensures 0 <= moves[k] < 9 {
        assert moves[k] in moves;
      }
    }
    children := PlayEach(b, moves, turn);
    ChildrenBelowMeaning(b, moves, turn, |moves|);
  }

  /** The loop of getChildren: one child per listed cell, in list order. */
  method PlayEach(b: Board, moves: seq<int>, turn: Player) returns (children: seq<Board>)
    requires forall k | 0 <= k < |moves| :: 0 <= moves[k] < 9
    ensures children == ChildrenBelow(b, moves, turn, |moves|)
  {
    children := [];
    var m := 0;
    while m < |moves|
      invariant 0 <= m <= |moves|
      invariant children == ChildrenBelow(b, moves, turn, m)
    {
      var child := TTT.DoMove(b, moves[m], turn);
      assert ChildrenBelow(b, moves, turn, m + 1) == ChildrenBelow(b, moves, turn, m) + [child];
      children := children + [child];
      m := m + 1;
    }
  }

  /** The older classification: None on a won board, otherwise the same open-line scan as
      TTT.cpp. */
  method IsWinnableForPlayer(b: Board) returns (winnableBy: Player)
    ensures TTT.GetWinner(b) != None ==> winnableBy == None
    ensures TTT.GetWinner(b) == None ==> winnableBy == TTT.Winnability(b)
  {
    if TTT.GetWinner(b) != None {
      return None;
    }
    winnableBy := TTT.ClassifyOpenLines(b);
  }

  /** The game on a plain board is over when it has no legal cell left: someone has won,
      or every cell is taken. */
  function IsGameOver(b: Board): (r: bool)
    ensures r <==> TTT.GetWinner(b) != None || forall c | 0 <= c < 9 :: b[c] != None
  {
    assert forall c | 0 <= c < 9 && b[c] == None && TTT.GetWinner(b) == None :: c in TTT.Moves(b);
    |TTT.Moves(b)| == 0
  }
}
