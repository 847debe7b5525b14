/** UTTTAI.cpp: move selection of the newer generation. A state is assessed once, then
    five rating stages in turn keep only the moves that rate best, until one move is
    left or the stages run out. */
module UTTTAI {
  import opened Common
  import TTT
  import TTTAI
  import opened GameState
  import UTTT
  import UTTTGame
  import Minimax
  import MiniMaxSearch

  // ---------------------------------------------------------------------------------
  // The search callbacks

  /** The leaf evaluation of the search: +1 when the bot is the winner, 0 while nobody has
      won, -1 when someone else has. */
  function EvaluateState(s: State): (r: int)
    ensures r == 1 <==> s.winner == s.player
    ensures r == 0 <==> s.winner == None && s.player != None
    ensures r == -1 <==> s.winner != s.player && s.winner != None
  {
    if s.winner == s.player then 1
    else if s.winner == None then 0
    else -1
  }

  /** A move changes the evaluation only when it makes the mover the winner. */
  lemma {:induction false} EvaluationChangesOnlyByWinning(s: State, m: Move)
    requires OnGrid(m)
    ensures EvaluateState(UTTT.Next(s, m)) != EvaluateState(s) ==> UTTT.Next(s, m).winner == s.turn
  {
  }

  /** The children of a state: one per legal move, in the order of the legal moves. */
  function Children(s: State): (r: seq<State>)
    ensures |r| == |UTTT.LegalMoves(s)|
    ensures forall k | 0 <= k < |r| :: r[k] == UTTT.Next(s, UTTT.LegalMoves(s)[k])
  {
    var moves := UTTT.LegalMoves(s);
    seq(|moves|, k requires 0 <= k < |moves| => UTTT.Next(s, moves[k]))
  }

  /** A won state has no children; in the others, child `k` differs from its parent in
      exactly the cell of legal move `k`, which was empty and now holds the mover. */
  lemma {:induction false} ChildrenAreOneMoveApart(s: State, k: int)
    requires 0 <= k < |Children(s)|
    ensures s.winner == None
    ensures var m := UTTT.LegalMoves(s)[k];
      var c := Children(s)[k];
      && s.subBoards[MacroIndex(m)][CellIndex(m)] == None
      && c.subBoards[MacroIndex(m)][CellIndex(m)] == s.turn
      && (forall mb, md | 0 <= mb < 9 && 0 <= md < 9 && (mb != MacroIndex(m) || md != CellIndex(m)) ::
            c.subBoards[mb][md] == s.subBoards[mb][md])
  {
    var m := UTTT.LegalMoves(s)[k];
    assert m in UTTT.LegalMoves(s);
  }

  method GetChildStates(state: State) returns (children: seq<State>)
    ensures children == Children(state)
  {
    children := [];
    var moves := UTTT.GetMoves(state);
    ghost var all := Children(state);
    var i := 0;
    while i < |moves|
      invariant 0 <= i <= |moves| == |all|
      invariant children == all[..i]
    {
      assert moves[i] in UTTT.LegalMoves(state);
      var child := UTTT.DoMove(state, moves[i]);
      PrefixStep(all, i);
      children := children + [child];
      i := i + 1;
    }
    assert all[..i] == all;
  }

  // ---------------------------------------------------------------------------------
  // Picking the best

  /** The largest entry. */
  function MaxOf(v: seq<int>): (m: int)
    requires |v| > 0
    ensures forall k | 0 <= k < |v| :: v[k] <= m
    ensures exists k | 0 <= k < |v| :: v[k] == m
  {
    if |v| == 1 then v[0]
    else
      var rest := MaxOf(v[..|v| - 1]);
      assert forall k | 0 <= k < |v| - 1 :: v[..|v| - 1][k] == v[k];
      if v[|v| - 1] > rest then v[|v| - 1] else rest
  }

  predicate Ascending(s: seq<int>) {
    forall j, k | 0 <= j < k < |s| :: s[j] < s[k]
  }

  /** The ascending indices below `n` whose entry is `x`. */
  function IndicesOf(v: seq<int>, x: int, n: nat): (r: seq<int>)
    requires n <= |v|
    ensures Ascending(r)
    ensures forall j | 0 <= j < |r| :: 0 <= r[j] < n && v[r[j]] == x
    ensures forall k | 0 <= k < n && v[k] == x :: k in r
  {
    if n == 0 then []
    else IndicesOf(v, x, n - 1) + (if v[n - 1] == x then [n - 1] else [])
  }

  /** The ascending indices of the largest entries: never empty, and an index is in it
      exactly when its entry is the maximum. */
  function BestIndices(v: seq<int>): (r: seq<int>)
    requires |v| > 0
    ensures |r| > 0 && Ascending(r)
    ensures forall j | 0 <= j < |r| :: 0 <= r[j] < |v|
    ensures forall k | 0 <= k < |v| :: k in r <==> v[k] == MaxOf(v)
  {
    var m := MaxOf(v);
    var k :| 0 <= k < |v| && v[k] == m;
    assert k in IndicesOf(v, m, |v|);
    IndicesOf(v, m, |v|)
  }

  /** The index the guard of the next-board stage compares with -20 is an index, so the
      comparison never fails. */
  lemma GuardNeverBlocks(v: seq<int>)
    requires |v| > 0
    ensures BestIndices(v)[0] != -20
  {
  }

  method BestRatingIndicesOfList(vals: seq<int>) returns (indices: seq<int>)
    requires |vals| > 0
    ensures indices == BestIndices(vals)
  {
    var bestVal := BestRating(vals);
    indices := IndicesRated(vals, bestVal);
  }

  /** The first loop of BestRatingIndicesOfList: the largest rating. */
  method BestRating(vals: seq<int>) returns (bestVal: int)
    requires |vals| > 0
    ensures bestVal == MaxOf(vals)
  {
    bestVal := vals[0];
    var i := 0;
    while i < |vals|
      invariant 0 <= i <= |vals|
      invariant bestVal == if i == 0 then vals[0] else MaxOf(vals[..i])
    {
      assert vals[..i + 1][..i] == vals[..i];
      if vals[i] > bestVal {
        bestVal := vals[i];
      }
      i := i + 1;
    }
    assert vals[..i] == vals;
  }

  /** The second loop of BestRatingIndicesOfList: the indices rated `x`, in order. */
  method IndicesRated(vals: seq<int>, x: int) returns (indices: seq<int>)
    ensures indices == IndicesOf(vals, x, |vals|)
  {
    indices := [];
    var i := 0;
    while i < |vals|
      invariant 0 <= i <= |vals|
      invariant indices == IndicesOf(vals, x, i)
    {
      if vals[i] == x {
        indices := indices + [i];
      }
      i := i + 1;
    }
  }

  /** The entries of `list` at `indices`, in the order of `indices`. */
  function Pick<O>(list: seq<O>, indices: seq<int>): (r: seq<O>)
    requires forall j | 0 <= j < |indices| :: 0 <= indices[j] < |list|
    ensures |r| == |indices|
  {
    seq(|indices|, j requires 0 <= j < |indices| => list[indices[j]])
  }

  method PickValuesAtIndicesOfList<O>(list: seq<O>, indices: seq<int>) returns (data: seq<O>)
    requires forall j | 0 <= j < |indices| :: 0 <= indices[j] < |list|
    ensures data == Pick(list, indices)
  {
    data := [];
    var i := 0;
    while i < |indices|
      invariant 0 <= i <= |indices|
      invariant data == Pick(list, indices[..i])
    {
      data := data + [list[indices[i]]];
      i := i + 1;
    }
    assert indices[..i] == indices;
  }

  /** Picking at ascending indices out of a pick at ascending indices is one pick at
      ascending indices of the original: the elimination keeps the survivors in order. */
  lemma {:induction false} PickTwice<O>(list: seq<O>, outer: seq<int>, inner: seq<int>)
    requires Ascending(outer) && Ascending(inner)
    requires forall j | 0 <= j < |outer| :: 0 <= outer[j] < |list|
    requires forall j | 0 <= j < |inner| :: 0 <= inner[j] < |outer|
    ensures Ascending(Pick(outer, inner))
    ensures Pick(Pick(list, outer), inner) == Pick(list, Pick(outer, inner))
  {
    var composed := Pick(outer, inner);
    forall j, k | 0 <= j < k < |composed|
      ensures composed[j] < composed[k]
    {
      assert inner[j] < inner[k];
    }
  }

  // ---------------------------------------------------------------------------------
  // The state assessment

  /** A sub-board that X could still take (or both players could). */
  predicate XOpen(p: Player) { p == X || p == Both }

  /** A sub-board that O could still take (or both players could). */
  predicate OOpen(p: Player) { p == O || p == Both }

  /** What one macro line adds to the offensive and the defensive list: nothing when one
      of its sub-boards can be won by nobody; its three indices to both lists when every
      sub-board can be won by both players; otherwise its indices to the list of the side
      that could take all three, offensive when that side is the bot. */
  function LineRelevance(pw: Board, l: Line, player: Player): (r: (seq<int>, seq<int>))
    ensures r.0 == [] || r.0 == [l.a as int, l.b, l.c]
    ensures r.1 == [] || r.1 == [l.a as int, l.b, l.c]
    ensures pw[l.a] == None || pw[l.b] == None || pw[l.c] == None ==> r == ([], [])
  {
    var a, b, c := pw[l.a], pw[l.b], pw[l.c];
    var triple := [l.a as int, l.b, l.c];
    if a == None || b == None || c == None then ([], [])
    else if a == b && a == c && a == Both then (triple, triple)
    else if XOpen(a) && XOpen(b) && XOpen(c) then
      if player == X then (triple, []) else ([], triple)
    else if OOpen(a) && OOpen(b) && OOpen(c) then
      if player == O then (triple, []) else ([], triple)
    else ([], [])
  }

  /** The offensive and defensive lists after the first `n` macro lines. */
  function Relevant(pw: Board, player: Player, n: nat): (r: (seq<int>, seq<int>))
    requires n <= 8
    ensures |r.0| % 3 == 0 && |r.0| <= 3 * n
    ensures |r.1| % 3 == 0 && |r.1| <= 3 * n
  {
    if n == 0 then ([], [])
    else
      var prev := Relevant(pw, player, n - 1);
      var here := LineRelevance(pw, Wins[n - 1], player);
      (prev.0 + here.0, prev.1 + here.1)
  }

  /** A winning line names three different cells. */
  lemma LineCellsDistinct(w: int)
    requires 0 <= w < 8
    ensures Wins[w].a != Wins[w].b && Wins[w].a != Wins[w].c && Wins[w].b != Wins[w].c
  {
  }

  /** What one line adds to a list holds an index at most once, and only one on the line. */
  lemma LineRelevanceCount(pw: Board, w: int, player: Player, i: int)
    requires 0 <= w < 8
    ensures TTTAI.Count(LineRelevance(pw, Wins[w], player).0, i) <= (if OnLine(Wins[w], i) then 1 else 0)
    ensures TTTAI.Count(LineRelevance(pw, Wins[w], player).1, i) <= (if OnLine(Wins[w], i) then 1 else 0)
  {
    LineCellsDistinct(w);
    var l := Wins[w];
    assert multiset([l.a as int, l.b, l.c])[i] == (if OnLine(l, i) then 1 else 0);
  }

  /** A sub-board index occurs in either list at most once per line through it. */
  lemma {:induction false} RelevantCountBound(pw: Board, player: Player, n: nat, i: Cell)
    requires n <= 8
    ensures TTTAI.Count(Relevant(pw, player, n).0, i) <= UTTTGame.ThroughBelow(i, n)
    ensures TTTAI.Count(Relevant(pw, player, n).1, i) <= UTTTGame.ThroughBelow(i, n)
  {
    if n > 0 {
      RelevantCountBound(pw, player, n - 1, i);
      LineRelevanceCount(pw, n - 1, player, i);
      var here := LineRelevance(pw, Wins[n - 1], player);
      var prev := Relevant(pw, player, n - 1);
      assert multiset(prev.0 + here.0) == multiset(prev.0) + multiset(here.0);
      assert multiset(prev.1 + here.1) == multiset(prev.1) + multiset(here.1);
    }
  }

  /** Every index in either list lies on a macro line none of whose sub-boards is classed
      as winnable by nobody. */
  lemma {:induction false} RelevantIndicesLieOnLiveLines(pw: Board, player: Player, n: nat, i: int)
    requires n <= 8
    requires i in Relevant(pw, player, n).0 || i in Relevant(pw, player, n).1
    ensures exists w | 0 <= w < n :: OnLine(Wins[w], i) && pw[Wins[w].a] != None && pw[Wins[w].b] != None && pw[Wins[w].c] != None
  {
    var prev := Relevant(pw, player, n - 1);
    var l := Wins[n - 1];
    var here := LineRelevance(pw, l, player);
    assert Relevant(pw, player, n) == (prev.0 + here.0, prev.1 + here.1);
    if i in prev.0 || i in prev.1 {
      RelevantIndicesLieOnLiveLines(pw, player, n - 1, i);
      var w :| 0 <= w < n - 1 && OnLine(Wins[w], i) && pw[Wins[w].a] != None && pw[Wins[w].b] != None && pw[Wins[w].c] != None;
      assert 0 <= w < n;
    } else {
      assert i in here.0 || i in here.1;
      assert OnLine(Wins[n - 1], i) && pw[l.a] != None && pw[l.b] != None && pw[l.c] != None;
    }
  }

  /** A macro line all of whose sub-boards both players can still win puts its three
      indices on both lists. */
  lemma {:induction false} SharedLinesCountForBoth(pw: Board, player: Player, n: nat, w: nat)
    requires w < n <= 8
    requires pw[Wins[w].a] == Both && pw[Wins[w].b] == Both && pw[Wins[w].c] == Both
    ensures forall i | OnLine(Wins[w], i) :: i in Relevant(pw, player, n).0 && i in Relevant(pw, player, n).1
  {
    if w < n - 1 {
      SharedLinesCountForBoth(pw, player, n - 1, w);
    }
  }

  /** The moves a line of sub-boards needs, when all three of its indices are on `rel`;
      0 otherwise. */
  function LineNeed(rel: seq<int>, partial: PerBoard, l: Line): int {
    if l.a as int in rel && l.b as int in rel && l.c as int in rel then partial[l.a] + partial[l.b] + partial[l.c]
    else 0
  }

  /** The sum of the legal-move counts of the first `n` sub-boards. */
  function MovesRemaining(g: Grid, n: nat): (r: nat)
    requires n <= 9
    ensures r <= 9 * n
  {
    if n == 0 then 0
    else MovesRemaining(g, n - 1) + |TTT.Moves(g[n - 1])|
  }

  /** The winnability class of each sub-board. */
  function Classes(g: Grid): (pw: Board)
    ensures forall b | 0 <= b < 9 :: pw[b] == TTT.Winnability(g[b])
  {
    seq(9, b requires 0 <= b < 9 => TTT.Winnability(g[b]))
  }

  /** The fewest moves `p` needs on each sub-board. */
  function Needs(g: Grid, p: Player): (r: PerBoard)
    ensures forall b | 0 <= b < 9 :: r[b] == TTT.MinimumMovesToWin(g[b], p)
  {
    seq(9, b requires 0 <= b < 9 => TTT.MinimumMovesToWin(g[b], p))
  }

  /** How often each sub-board index occurs in `rel`. */
  function Worths(rel: seq<int>): (r: PerBoard)
    ensures forall i | 0 <= i < 9 :: r[i] == TTTAI.Count(rel, i)
  {
    seq(9, i => TTTAI.Count(rel, i))
  }

  /** The need of each macro line. */
  function LineNeeds(rel: seq<int>, partial: PerBoard): (r: PerLine)
    ensures forall w | 0 <= w < 8 :: r[w] == LineNeed(rel, partial, Wins[w])
  {
    seq(8, w requires 0 <= w < 8 => LineNeed(rel, partial, Wins[w]))
  }

  /** The assessment that every stage reads. */
  function Assess(s: State): (a: AssessedState)
    ensures a.state == s
    ensures 0 <= a.maxMovesRemaining <= 81
    ensures |a.relevantMacroIndicesOffensive| % 3 == 0 && |a.relevantMacroIndicesOffensive| <= 24
    ensures |a.relevantMacroIndicesDefensive| % 3 == 0 && |a.relevantMacroIndicesDefensive| <= 24
  {
    var pw := Classes(s.subBoards);
    var wins := Needs(s.subBoards, s.player);
    var losses := Needs(s.subBoards, s.opponent);
    var rel := Relevant(pw, s.player, 8);
    AssessedState(
      s, pw, wins, losses, rel.0, rel.1, Worths(rel.0), Worths(rel.1),
      LineNeeds(rel.0, wins), LineNeeds(rel.1, losses), MovesRemaining(s.subBoards, 9))
  }

  /** A sub-board's offensive and defensive worth are each at most the number of macro
      lines through it, so at most 4. */
  lemma WorthsBoundedByLines(s: State, i: Cell)
    ensures 0 <= Assess(s).macroFieldWorthsOffensive[i] <= LinesThrough(i)
    ensures 0 <= Assess(s).macroFieldWorthsDefensive[i] <= LinesThrough(i)
  {
    RelevantCountBound(Classes(s.subBoards), s.player, 8, i);
    UTTTGame.ThroughAllLines(i);
  }

  method AssessState(state: State) returns (a: AssessedState)
    ensures a == Assess(state)
  {
    var maxMovesRemaining := CountMovesRemaining(state.subBoards);
    var wins := MinimumMovesPerBoard(state.subBoards, state.player);
    var losses := MinimumMovesPerBoard(state.subBoards, state.opponent);
    var classes := WinnabilityPerBoard(state.subBoards);
    var offensive, defensive := RelevantMacroIndices(classes, state.player);
    var worthOffensive := Occurrences(offensive);
    var worthDefensive := Occurrences(defensive);
    var toWin, toLoose := MinimumMovesToLines(offensive, defensive, wins, losses);
    a := AssessedState(state, classes, wins, losses, offensive, defensive, worthOffensive, worthDefensive,
                       toWin, toLoose, maxMovesRemaining);
  }

  /** The first loop of AssessState: the free cells of all sub-boards. */
  method CountMovesRemaining(g: Grid) returns (n: int)
    ensures n == MovesRemaining(g, 9)
  {
    n := 0;
    var b := 0;
    while b < 9
      invariant 0 <= b <= 9
      invariant n == MovesRemaining(g, b)
    {
      var moves := TTT.GetMoves(g[b]);
      n := n + |moves|;
      b := b + 1;
    }
  }

  /** The fewest moves `p` needs on each sub-board, as AssessState computes them. */
  method MinimumMovesPerBoard(g: Grid, p: Player) returns (r: PerBoard)
    ensures r == Needs(g, p)
  {
    var needs: seq<int> := seq(9, _ => 0);
    var b := 0;
    while b < 9
      invariant 0 <= b <= 9 && |needs| == 9
      invariant forall k | 0 <= k < b :: needs[k] == TTT.MinimumMovesToWin(g[k], p)
    {
      var need := TTT.GetMinimumMovesToWin(g[b], p);
      needs := needs[b := need];
      b := b + 1;
    }
    r := needs;
  }

  /** The winnability class of each sub-board, as AssessState computes it. */
  method WinnabilityPerBoard(g: Grid) returns (pw: Board)
    ensures pw == Classes(g)
  {
    var classes: seq<Player> := seq(9, _ => None);
    var b := 0;
    while b < 9
      invariant 0 <= b <= 9 && |classes| == 9
      invariant forall k | 0 <= k < b :: classes[k] == TTT.Winnability(g[k])
    {
      var winnableBy := TTT.IsWinnableForPlayer(g[b]);
      classes := classes[b := winnableBy];
      b := b + 1;
    }
    pw := classes;
  }

  /** How often each sub-board index occurs in a relevance list, as AssessState counts it. */
  method Occurrences(rel: seq<int>) returns (worths: PerBoard)
    ensures worths == Worths(rel)
  {
    var counts: seq<int> := seq(9, _ => 0);
    var i := 0;
    while i < 9
      invariant 0 <= i <= 9 && |counts| == 9
      invariant forall k | 0 <= k < i :: counts[k] == TTTAI.Count(rel, k)
    {
      counts := counts[i := TTTAI.Count(rel, i)];
      i := i + 1;
    }
    worths := counts;
  }

  /** The macro-line loop of AssessState: the offensive and defensive lists. */
  method RelevantMacroIndices(classes: Board, player: Player) returns (offensive: seq<int>, defensive: seq<int>)
    ensures (offensive, defensive) == Relevant(classes, player, 8)
  {
    offensive := [];
    defensive := [];
    var w := 0;
    while w < 8
      invariant 0 <= w <= 8
      invariant offensive == Relevant(classes, player, w).0
      invariant defensive == Relevant(classes, player, w).1
    {
      var off, def := RelevanceOfLine(classes, Wins[w], player);
      offensive := offensive + off;
      defensive := defensive + def;
      w := w + 1;
    }
  }

  /** The body of that loop: what one macro line adds to each list. */
  method RelevanceOfLine(classes: Board, win: Line, player: Player) returns (off: seq<int>, def: seq<int>)
    ensures (off, def) == LineRelevance(classes, win, player)
  {
    off, def := [], [];
    var pa, pb, pc := classes[win.a], classes[win.b], classes[win.c];
    if pa == None || pb == None || pc == None {
      return;
    }
    if pa == pb && pa == pc && pa == Both {
      off := [win.a as int, win.b, win.c];
      def := [win.a as int, win.b, win.c];
    } else if XOpen(pa) && XOpen(pb) && XOpen(pc) {
      if player == X {
        off := [win.a as int, win.b, win.c];
      } else {
        def := [win.a as int, win.b, win.c];
      }
    } else if OOpen(pa) && OOpen(pb) && OOpen(pc) {
      if player == O {
        off := [win.a as int, win.b, win.c];
      } else {
        def := [win.a as int, win.b, win.c];
      }
    }
  }

  /** The last loop of AssessState: the moves each macro line needs, for the bot on the
      offensive list and for the opponent on the defensive one. */
  method MinimumMovesToLines(offensive: seq<int>, defensive: seq<int>, wins: PerBoard, losses: PerBoard)
    returns (toWin: PerLine, toLoose: PerLine)
    ensures toWin == LineNeeds(offensive, wins) && toLoose == LineNeeds(defensive, losses)
  {
    var minMovesToWin: seq<int> := seq(8, _ => 0);
    var minMovesToLoose: seq<int> := seq(8, _ => 0);
    var w := 0;
    while w < 8
      invariant 0 <= w <= 8 && |minMovesToWin| == 8 && |minMovesToLoose| == 8
      invariant forall v | 0 <= v < w :: minMovesToWin[v] == LineNeed(offensive, wins, Wins[v])
      invariant forall v | 0 <= v < w :: minMovesToLoose[v] == LineNeed(defensive, losses, Wins[v])
    {
      var win := Wins[w];
      if win.a as int in offensive && win.b as int in offensive && win.c as int in offensive {
        minMovesToWin := minMovesToWin[w := wins[win.a] + wins[win.b] + wins[win.c]];
      } else {
        minMovesToWin := minMovesToWin[w := 0];
      }
      if win.a as int in defensive && win.b as int in defensive && win.c as int in defensive {
        minMovesToLoose := minMovesToLoose[w := losses[win.a] + losses[win.b] + losses[win.c]];
      } else {
        minMovesToLoose := minMovesToLoose[w := 0];
      }
      w := w + 1;
    }
    toWin, toLoose := minMovesToWin, minMovesToLoose;
  }

  // ---------------------------------------------------------------------------------
  // The rating stages

  /** The position stage's rating of a move: -1 when the sub-board it sends the opponent
      to has no legal move (the opponent then chooses freely); otherwise 0, 1 or 2 as that
      sub-board can still be won by both players, by one, or by nobody. A won sub-board
      has no legal move, so the classification is always one of those three. */
  function RateByPosition(move: Move, a: AssessedState): (r: int)
    requires OnGrid(move)
    ensures -1 <= r <= 2
  {
    var next := a.state.subBoards[CellIndex(move)];
    if TTT.Moves(next) == [] then -1
    else
      var winnableBy := TTT.Winnability(next);
      if winnableBy == Both then 0
      else if winnableBy == X || winnableBy == O then 1
      else 2
  }

  /** The position rating in terms of the destination sub-board's lines: -1 exactly when
      it has no legal move; otherwise 0 when some line is free of X and some line is free
      of O, 2 when every line holds both marks, and 1 when only one side has a free line. */
  lemma {:induction false} RateByPositionMeaning(move: Move, a: AssessedState)
    requires OnGrid(move)
    ensures var next := a.state.subBoards[CellIndex(move)];
      var oFree := exists w | 0 <= w < 8 :: FreeOf(next, Wins[w], X);
      var xFree := exists w | 0 <= w < 8 :: FreeOf(next, Wins[w], O);
      && (RateByPosition(move, a) == -1 <==> TTT.Moves(next) == [])
      && (RateByPosition(move, a) == 0 <==> TTT.Moves(next) != [] && oFree && xFree)
      && (RateByPosition(move, a) == 1 <==> TTT.Moves(next) != [] && oFree != xFree)
      && (RateByPosition(move, a) == 2 <==> TTT.Moves(next) != [] && !oFree && !xFree)
  {
    var next := a.state.subBoards[CellIndex(move)];
    var moves := TTT.Moves(next);
    if moves != [] {
      assert moves[0] in moves;
      TTT.WinnabilityOfUnwonBoard(next);
    }
  }

  /** The macro-relevance stage's rating of a move: the offensive plus the defensive worth
      of the sub-board it is played in. */
  function MacroRelevance(move: Move, a: AssessedState): (r: int)
    requires OnGrid(move)
  {
    a.macroFieldWorthsOffensive[MacroIndex(move)] + a.macroFieldWorthsDefensive[MacroIndex(move)]
  }

  /** On an assessed state the macro relevance of a move lies between 0 and twice the
      number of macro lines through its sub-board. */
  lemma MacroRelevanceBound(s: State, move: Move)
    requires OnGrid(move)
    ensures 0 <= MacroRelevance(move, Assess(s)) <= 2 * LinesThrough(MacroIndex(move))
  {
    WorthsBoundedByLines(s, MacroIndex(move));
  }

  /** The sub-board a move sends the opponent to, as it is after the move: with the move's
      own mark when the move is played in that very sub-board. */
  function Destination(move: Move, a: AssessedState): Board
    requires OnGrid(move)
  {
    var d := CellIndex(move);
    if MacroIndex(move) == d then TTT.DoMove(a.state.subBoards[d], d, a.state.player)
    else a.state.subBoards[d]
  }

  /** The next-board stage's first rating of a move: -20 when the destination has no legal
      move, otherwise minus the defensive and offensive worth of the destination. */
  function NextBoardRating(move: Move, a: AssessedState): int
    requires OnGrid(move)
  {
    var d := CellIndex(move);
    if TTT.Moves(Destination(move, a)) == [] then -20
    else 0 - a.macroFieldWorthsDefensive[d] - a.macroFieldWorthsOffensive[d]
  }

  /** On an assessed state -20 marks exactly the moves whose destination has no legal
      move, and every other move loses at most two points per line through its
      destination, so it rates between -8 and 0, above those. */
  lemma NextBoardRatingBounds(s: State, move: Move)
    requires OnGrid(move)
    ensures var r := NextBoardRating(move, Assess(s));
      && (r == -20 <==> TTT.Moves(Destination(move, Assess(s))) == [])
      && (r != -20 ==> -2 * LinesThrough(CellIndex(move)) <= r <= 0 && -8 <= r)
  {
    WorthsBoundedByLines(s, CellIndex(move));
  }

  /** One move's rating by the per-move stages: 1 macro relevance, 2 tic-tac-toe
      strategy, 3 position, 4 the first rating of the next-board stage. */
  function MoveRating(kind: int, move: Move, a: AssessedState): int
    requires 1 <= kind <= 4 && OnGrid(move)
  {
    if kind == 1 then MacroRelevance(move, a)
    else if kind == 2 then TTTAI.RateMove(a, move)
    else if kind == 3 then RateByPosition(move, a)
    else NextBoardRating(move, a)
  }

  /** The ratings of the first `n` moves by one per-move stage, in the moves' order. */
  function RatingsBelow(kind: int, moves: seq<Move>, a: AssessedState, n: nat): (r: seq<int>)
    requires 1 <= kind <= 4 && n <= |moves| && forall k | 0 <= k < |moves| :: OnGrid(moves[k])
    ensures |r| == n
    ensures forall k | 0 <= k < n :: r[k] == MoveRating(kind, moves[k], a)
  {
    if n == 0 then [] else RatingsBelow(kind, moves, a, n - 1) + [MoveRating(kind, moves[n - 1], a)]
  }

  /** The first ratings of the next-board stage, one per move. */
  function NextBoardBase(moves: seq<Move>, a: AssessedState): (r: seq<int>)
    requires forall k | 0 <= k < |moves| :: OnGrid(moves[k])
    ensures |r| == |moves|
    ensures forall k | 0 <= k < |moves| :: r[k] == NextBoardRating(moves[k], a)
  {
    RatingsBelow(4, moves, a, |moves|)
  }

  /** A tied best move's second rating: the opponent's fewest moves to win its destination
      board are added and the bot's subtracted. */
  function TieBroken(moves: seq<Move>, a: AssessedState, base: seq<int>, k: int): int
    requires |base| == |moves| && 0 <= k < |moves| && OnGrid(moves[k])
  {
    base[k] + a.minMovesToPartialLosses[CellIndex(moves[k])] - a.minMovesToPartialWins[CellIndex(moves[k])]
  }

  /** The ratings of the stage once the moves in `best` have their ties broken. */
  function BreakTies(moves: seq<Move>, a: AssessedState, base: seq<int>, best: seq<int>): (r: seq<int>)
    requires |base| == |moves| && forall k | 0 <= k < |moves| :: OnGrid(moves[k])
    ensures |r| == |moves|
    ensures forall k | 0 <= k < |moves| :: r[k] == if k in best then TieBroken(moves, a, base, k) else base[k]
  {
    BreakTiesBelow(moves, a, base, best, |moves|)
  }

  /** BreakTies on the first `n` moves. */
  function BreakTiesBelow(moves: seq<Move>, a: AssessedState, base: seq<int>, best: seq<int>, n: nat): (r: seq<int>)
    requires n <= |base| == |moves| && forall k | 0 <= k < |moves| :: OnGrid(moves[k])
    ensures |r| == n
    ensures forall k | 0 <= k < n :: r[k] == if k in best then TieBroken(moves, a, base, k) else base[k]
  {
    if n == 0 then []
    else
      BreakTiesBelow(moves, a, base, best, n - 1)
        + [if n - 1 in best then TieBroken(moves, a, base, n - 1) else base[n - 1]]
  }

  /** The next-board stage as its code is written: the guard meant to keep moves rated -20
      out of the tie-break compares the first best index, not its rating, with -20, so
      every tie is broken. */
  function NextBoardRatingsAsWritten(moves: seq<Move>, a: AssessedState): (r: seq<int>)
    requires |moves| > 0 && forall k | 0 <= k < |moves| :: OnGrid(moves[k])
    ensures |r| == |moves|
  {
    var base := NextBoardBase(moves, a);
    var best := BestIndices(base);
    if |best| > 1 && best[0] != -20 then BreakTies(moves, a, base, best) else base
  }

  /** The next-board stage: the first ratings, then, when more than one move shares a best
      rating other than -20, those moves gain the opponent's fewest moves to win their
      destination and lose the bot's. */
  function NextBoardRatings(moves: seq<Move>, a: AssessedState): (r: seq<int>)
    requires |moves| > 0 && forall k | 0 <= k < |moves| :: OnGrid(moves[k])
    ensures |r| == |moves|
  {
    var base := NextBoardBase(moves, a);
    var best := BestIndices(base);
    if |best| > 1 && base[best[0]] != -20 then BreakTies(moves, a, base, best) else base
  }

  /** As written, when the best first rating is -20, that is every move hands the opponent
      a free choice, and several moves share it, the first of them is still re-rated. */
  lemma AsWrittenRanksFreeChoices(moves: seq<Move>, a: AssessedState)
    requires |moves| > 0 && forall k | 0 <= k < |moves| :: OnGrid(moves[k])
    requires var best := BestIndices(NextBoardBase(moves, a)); |best| > 1 && NextBoardBase(moves, a)[best[0]] == -20
    ensures var k := BestIndices(NextBoardBase(moves, a))[0];
      NextBoardRatingsAsWritten(moves, a)[k]
        == -20 + a.minMovesToPartialLosses[CellIndex(moves[k])] - a.minMovesToPartialWins[CellIndex(moves[k])]
  {
    GuardNeverBlocks(NextBoardBase(moves, a));
  }

  /** The stage only ever re-rates tied best moves, and never moves rated -20: these keep
      their first rating, and every other move keeps it unless it is among several best. */
  lemma NextBoardRatingsKeepFreeChoices(moves: seq<Move>, a: AssessedState, k: int)
    requires |moves| > 0 && forall j | 0 <= j < |moves| :: OnGrid(moves[j])
    requires 0 <= k < |moves|
    ensures NextBoardBase(moves, a)[k] == -20 ==> NextBoardRatings(moves, a)[k] == -20
    ensures NextBoardBase(moves, a)[k] != MaxOf(NextBoardBase(moves, a)) ==>
      NextBoardRatings(moves, a)[k] == NextBoardBase(moves, a)[k]
  {
    var base := NextBoardBase(moves, a);
    var best := BestIndices(base);
    if |best| > 1 && base[best[0]] != -20 {
      var r := BreakTies(moves, a, base, best);
      assert NextBoardRatings(moves, a) == r;
      assert base[best[0]] == MaxOf(base);
      if base[k] == -20 || base[k] != MaxOf(base) {
        assert k !in best;
        assert r[k] == base[k];
      }
    } else {
      assert NextBoardRatings(moves, a) == base;
    }
  }

  method RateMovesByTTTStrats(moves: seq<Move>, a: AssessedState) returns (ratings: seq<int>)
    requires forall k | 0 <= k < |moves| :: OnGrid(moves[k])
    ensures |ratings| == |moves|
    ensures forall k | 0 <= k < |moves| :: ratings[k] == TTTAI.RateMove(a, moves[k])
  {
    ratings := [];
    var i := 0;
    while i < |moves|
      invariant 0 <= i <= |moves| && ratings == RatingsBelow(2, moves, a, i)
    {
      assert TTTAI.RateMove(a, moves[i]) == MoveRating(2, moves[i], a);
      ratings := ratings + [TTTAI.RateMove(a, moves[i])];
      i := i + 1;
    }
  }

  method RateMovesByPosition(moves: seq<Move>, a: AssessedState) returns (ratings: seq<int>)
    requires forall k | 0 <= k < |moves| :: OnGrid(moves[k])
    ensures |ratings| == |moves|
    ensures forall k | 0 <= k < |moves| :: ratings[k] == RateByPosition(moves[k], a)
  {
    ratings := [];
    var i := 0;
    while i < |moves|
      invariant 0 <= i <= |moves| && ratings == RatingsBelow(3, moves, a, i)
    {
      var rating := RateByPosition(moves[i], a);
      assert rating == MoveRating(3, moves[i], a);
      ratings := ratings + [rating];
      i := i + 1;
    }
  }

  method RateMovesByMacroRelevance(moves: seq<Move>, a: AssessedState) returns (ratings: seq<int>)
    requires forall k | 0 <= k < |moves| :: OnGrid(moves[k])
    ensures |ratings| == |moves|
    ensures forall k | 0 <= k < |moves| :: ratings[k] == MacroRelevance(moves[k], a)
  {
    ratings := [];
    var i := 0;
    while i < |moves|
      invariant 0 <= i <= |moves| && ratings == RatingsBelow(1, moves, a, i)
    {
      var rating := RateMacroRelevance(moves[i], a);
      assert rating == MoveRating(1, moves[i], a);
      ratings := ratings + [rating];
      i := i + 1;
    }
  }

  /** The body of that loop: one move's macro relevance. */
  method RateMacroRelevance(move: Move, a: AssessedState) returns (rating: int)
    requires OnGrid(move)
    ensures rating == MacroRelevance(move, a)
  {
    var macroBoardIndex := move.x / 3 + 3 * (move.y / 3);
    rating := a.macroFieldWorthsOffensive[macroBoardIndex] + a.macroFieldWorthsDefensive[macroBoardIndex];
  }

  /** The next-board stage as the code has it: its guard compares the first best index,
      not that move's rating, with -20 (see NextBoardRatings for the intended guard). */
  method RateMovesByNextBoardPosition(moves: seq<Move>, a: AssessedState) returns (ratings: seq<int>)
    requires |moves| > 0 && forall k | 0 <= k < |moves| :: OnGrid(moves[k])
    ensures ratings == NextBoardRatingsAsWritten(moves, a)
  {
    ratings := FirstNextBoardRatings(moves, a);
    var bestMoves := BestRatingIndicesOfList(ratings);
    if |bestMoves| > 1 && bestMoves[0] != -20 {
      ratings := BreakBestTies(moves, a, ratings, bestMoves);
    }
  }

  /** The first loop of the next-board stage. */
  method FirstNextBoardRatings(moves: seq<Move>, a: AssessedState) returns (ratings: seq<int>)
    requires forall k | 0 <= k < |moves| :: OnGrid(moves[k])
    ensures ratings == NextBoardBase(moves, a)
  {
    ratings := [];
    var i := 0;
    while i < |moves|
      invariant 0 <= i <= |moves| && ratings == RatingsBelow(4, moves, a, i)
    {
      var rating := RateNextBoard(moves[i], a);
      assert rating == MoveRating(4, moves[i], a);
      ratings := ratings + [rating];
      i := i + 1;
    }
  }

  /** The body of that loop: one move's first rating. */
  method RateNextBoard(move: Move, a: AssessedState) returns (rating: int)
    requires OnGrid(move)
    ensures rating == NextBoardRating(move, a)
  {
    var macroMove := move.x / 3 + 3 * (move.y / 3);
    var nextMacroBoardIndex := move.x % 3 + 3 * (move.y % 3);
    var nextSubBoard;
    if macroMove == nextMacroBoardIndex {
      nextSubBoard := TTT.DoMove(a.state.subBoards[nextMacroBoardIndex], nextMacroBoardIndex, a.state.player);
    } else {
      nextSubBoard := a.state.subBoards[nextMacroBoardIndex];
    }
    assert nextSubBoard == Destination(move, a);
    var nextMoves := TTT.GetMoves(nextSubBoard);
    if |nextMoves| == 0 {
      rating := -20;
    } else {
      rating := 0;
      rating := rating - a.macroFieldWorthsDefensive[nextMacroBoardIndex];
      rating := rating - a.macroFieldWorthsOffensive[nextMacroBoardIndex];
    }
  }

  /** The tie-break loop of the next-board stage, over distinct best indices. */
  method BreakBestTies(moves: seq<Move>, a: AssessedState, base: seq<int>, bestMoves: seq<int>)
    returns (ratings: seq<int>)
    requires |base| == |moves| && forall k | 0 <= k < |moves| :: OnGrid(moves[k])
    requires Ascending(bestMoves) && forall j | 0 <= j < |bestMoves| :: 0 <= bestMoves[j] < |moves|
    ensures ratings == BreakTies(moves, a, base, bestMoves)
  {
    ratings := base;
    var j := 0;
    while j < |bestMoves|
      invariant 0 <= j <= |bestMoves| && |ratings| == |moves|
      invariant forall k | 0 <= k < |moves| ::
        ratings[k] == if k in bestMoves[..j] then TieBroken(moves, a, base, k) else base[k]
    {
      var bestMove := bestMoves[j];
      var nextMacroBoardIndex := moves[bestMove].x % 3 + 3 * (moves[bestMove].y % 3);
      assert bestMove !in bestMoves[..j];
      assert bestMoves[..j + 1] == bestMoves[..j] + [bestMove];
      ratings := ratings[bestMove := ratings[bestMove] + a.minMovesToPartialLosses[nextMacroBoardIndex]];
      ratings := ratings[bestMove := ratings[bestMove] - a.minMovesToPartialWins[nextMacroBoardIndex]];
      j := j + 1;
    }
    assert bestMoves[..j] == bestMoves;
  }

  /** The search stage's ratings of a state: all 0 before round 9; from round 9 on one per
      child, each 0 or the marked score of the child at the first depth from 3 on at which
      its search was complete or found a decided score. */
  ghost predicate MiniMaxRatings(s: State, n: nat, ratings: seq<int>) {
    if s.round < 9 then ratings == seq(n, _ => 0)
    else
      |ratings| == |Children(s)|
      && forall k | 0 <= k < |ratings| :: SearchRating(Children(s)[k], ratings[k])
  }

  /** The search stage's rating of one child: 0, or its marked score at the first depth
      from 3 on at which its search was complete or found a decided score. */
  ghost predicate SearchRating(child: State, rating: int) {
    rating == 0 || exists d ::
      MiniMaxSearch.Missed(EvaluateState, Children, child, d) && MiniMaxSearch.Settled(EvaluateState, Children, child, d, rating)
  }

  /** The search stage. It rates the children of the state, that is all legal moves in
      their order, not the moves passed in; the time per move of the state is read as the
      number of visits the deepening loop may make. */
  method RateMovesByMiniMaxAB(moves: seq<Move>, a: AssessedState) returns (ratings: seq<int>)
    requires a.state.round >= 9 ==> UTTT.LegalMoves(a.state) != []
    ensures MiniMaxRatings(a.state, |moves|, ratings)
  {
    if a.state.round < 9 {
      return seq(|moves|, _ => 0);
    }
    var mms := new MiniMaxSearch.MiniMaxSearch<State>(EvaluateState, Children);
    var steps := if a.state.timePerMove > 0 then a.state.timePerMove else 0;
    ghost var settled, depths, passes, branch;
    ratings, settled, depths, passes, branch := mms.EvaluateBranchUntilTimeout(a.state, steps);
    forall k | 0 <= k < |ratings|
      ensures SearchRating(Children(a.state)[k], ratings[k])
    {
      if ratings[k] != 0 {
        assert settled[k];
        assert MiniMaxSearch.Missed(EvaluateState, Children, Children(a.state)[k], depths[k]);
      }
    }
  }

  // ---------------------------------------------------------------------------------
  // Move selection: five stages, each keeping the moves it rates best

  /** The number of selection stages. */
  const StageCount := 5

  /** The ratings of the deterministic stages 1 to 4: macro relevance, tic-tac-toe
      strategy, position, next board. */
  function StageRatings(stage: int, moves: seq<Move>, a: AssessedState): (r: seq<int>)
    requires 1 <= stage < StageCount
    requires |moves| > 0 && forall k | 0 <= k < |moves| :: OnGrid(moves[k])
    ensures |r| == |moves|
  {
    if stage < 4 then RatingsBelow(stage, moves, a, |moves|) else NextBoardRatingsAsWritten(moves, a)
  }

  /** The moves among the first `n` whose rating is `x`, in their order. */
  function KeepRated(moves: seq<Move>, v: seq<int>, x: int, n: nat): (r: seq<Move>)
    requires n <= |moves| == |v|
    ensures |r| <= n
  {
    if n == 0 then []
    else KeepRated(moves, v, x, n - 1) + (if v[n - 1] == x then [moves[n - 1]] else [])
  }

  /** Every kept move is one of the first `n`, at an index `k` rated `x`. */
  lemma {:induction false} KeptAreRated(moves: seq<Move>, v: seq<int>, x: int, n: nat, j: int) returns (k: int)
    requires n <= |moves| == |v|
    requires 0 <= j < |KeepRated(moves, v, x, n)|
    ensures 0 <= k < n && v[k] == x && moves[k] == KeepRated(moves, v, x, n)[j]
  {
    var prev := KeepRated(moves, v, x, n - 1);
    if j < |prev| {
      k := KeptAreRated(moves, v, x, n - 1, j);
    } else {
      k := n - 1;
    }
  }

  /** A move rated `x` among the first `n` is kept, so something is. */
  lemma {:induction false} KeepRatedNonEmpty(moves: seq<Move>, v: seq<int>, x: int, n: nat, k: int)
    requires n <= |moves| == |v|
    requires 0 <= k < n && v[k] == x
    ensures |KeepRated(moves, v, x, n)| > 0
  {
    if k < n - 1 {
      KeepRatedNonEmpty(moves, v, x, n - 1, k);
    }
  }

  /** Picking the moves at the indices rated `x` keeps the moves rated `x`. */
  lemma {:induction false} PickIndicesIsKeep(moves: seq<Move>, v: seq<int>, x: int, n: nat)
    requires n <= |moves| == |v|
    ensures Pick(moves, IndicesOf(v, x, n)) == KeepRated(moves, v, x, n)
  {
    if n > 0 {
      PickIndicesIsKeep(moves, v, x, n - 1);
      var before := IndicesOf(v, x, n - 1);
      var tail: seq<int> := if v[n - 1] == x then [n - 1] else [];
      assert IndicesOf(v, x, n) == before + tail;
      PickConcat(moves, before, tail);
      var added: seq<Move> := if v[n - 1] == x then [moves[n - 1]] else [];
      assert Pick(moves, tail) == added;
      assert KeepRated(moves, v, x, n) == KeepRated(moves, v, x, n - 1) + added;
    }
  }

  /** Picking at two lists of indices one after the other is picking at their concatenation. */
  lemma PickConcat(moves: seq<Move>, xs: seq<int>, ys: seq<int>)
    requires forall j | 0 <= j < |xs| :: 0 <= xs[j] < |moves|
    requires forall j | 0 <= j < |ys| :: 0 <= ys[j] < |moves|
    ensures Pick(moves, xs + ys) == Pick(moves, xs) + Pick(moves, ys)
  {
    var l := Pick(moves, xs + ys);
    var r := Pick(moves, xs) + Pick(moves, ys);
    assert |l| == |r|;
    forall j | 0 <= j < |l|
      ensures l[j] == r[j]
    {
      if j < |xs| {
        assert (xs + ys)[j] == xs[j];
      } else {
        assert (xs + ys)[j] == ys[j - |xs|];
      }
    }
  }

  /** A stage's ratings of the moves it is given, as a function of the stage. */
  type Rater = (nat, seq<Move>) -> seq<int>

  /** The stages of the bot: the search stage's ratings are `first`; stages 1 to 4 rate
      as StageRatings does. */
  function Stages(a: AssessedState, first: seq<int>): Rater {
    (stage: nat, ms: seq<Move>) => RatingsOfStage(stage, ms, a, first)
  }

  /** What stage `stage` rates the moves `ms` with. */
  function RatingsOfStage(stage: nat, ms: seq<Move>, a: AssessedState, first: seq<int>): seq<int> {
    if stage == 0 then first
    else if stage < StageCount && |ms| > 0 && (forall k | 0 <= k < |ms| :: OnGrid(ms[k])) then StageRatings(stage, ms, a)
    else []
  }

  /** The moves a stage keeps: those its ratings `v` rate best, in their order; ratings
      that do not match the moves keep them all. */
  function Keep(ms: seq<Move>, v: seq<int>): (r: seq<Move>)
    requires |ms| > 0
    ensures 0 < |r| <= |ms|
  {
    if |v| != |ms| then ms
    else
      var r := KeepRated(ms, v, MaxOf(v), |ms|);
      assert |r| > 0 by {
        var k :| 0 <= k < |v| && v[k] == MaxOf(v);
        KeepRatedNonEmpty(ms, v, MaxOf(v), |ms|, k);
      }
      r
  }

  /** A stage keeps only moves it was given, each at an index it rated best. */
  lemma KeptFrom(ms: seq<Move>, v: seq<int>, j: int) returns (k: int)
    requires |ms| > 0 && 0 <= j < |Keep(ms, v)|
    ensures 0 <= k < |ms| && ms[k] == Keep(ms, v)[j]
    ensures |v| == |ms| ==> v[k] == MaxOf(v)
  {
    if |v| != |ms| {
      k := j;
    } else {
      k := KeptAreRated(ms, v, MaxOf(v), |ms|, j);
    }
  }

  /** The moves still in the running after the first `n` stages: each stage keeps the
      moves it rates best, and once a single move is left no later stage runs. */
  function SurvivorsAfter(n: nat, moves: seq<Move>, rate: Rater): (r: seq<Move>)
    requires |moves| > 0
    ensures |r| > 0
  {
    if n == 0 then moves
    else
      var prev := SurvivorsAfter(n - 1, moves, rate);
      if |prev| == 1 then prev else Keep(prev, rate(n - 1, prev))
  }

  /** The selected move: the first of those left after all stages, which is the only one
      when a stage left a single move. */
  function Select(moves: seq<Move>, a: AssessedState, first: seq<int>): Move
    requires |moves| > 0
  {
    SurvivorsAfter(StageCount, moves, Stages(a, first))[0]
  }

  /** Later stages only narrow the moves: each move left after `n` stages was left after
      any `m <= n` stages, at index `k`. */
  lemma {:induction false} SurvivorsNarrow(n: nat, m: nat, moves: seq<Move>, rate: Rater, j: int) returns (k: int)
    requires m <= n && |moves| > 0
    requires 0 <= j < |SurvivorsAfter(n, moves, rate)|
    ensures 0 <= k < |SurvivorsAfter(m, moves, rate)|
    ensures SurvivorsAfter(m, moves, rate)[k] == SurvivorsAfter(n, moves, rate)[j]
    decreases n
  {
    if n == m {
      k := j;
    } else {
      var prev := SurvivorsAfter(n - 1, moves, rate);
      var i := j;
      if |prev| > 1 {
        i := KeptFrom(prev, rate(n - 1, prev), j);
      }
      k := SurvivorsNarrow(n - 1, m, moves, rate, i);
    }
  }

  /** One more stage: when at least two moves are left after `n` stages, stage `n` keeps
      those it rates best. */
  lemma SurvivorsStep(n: nat, moves: seq<Move>, rate: Rater, prev: seq<Move>)
    requires |moves| > 0 && prev == SurvivorsAfter(n, moves, rate) && |prev| > 1
    ensures SurvivorsAfter(n + 1, moves, rate) == Keep(prev, rate(n, prev))
  {
  }

  /** Once a stage leaves a single move, no later stage changes it. */
  lemma {:induction false} SurvivorsSettle(n: nat, m: nat, moves: seq<Move>, rate: Rater)
    requires m <= n && |moves| > 0
    requires |SurvivorsAfter(m, moves, rate)| == 1
    ensures SurvivorsAfter(n, moves, rate) == SurvivorsAfter(m, moves, rate)
    decreases n
  {
    if n > m {
      SurvivorsSettle(n - 1, m, moves, rate);
    }
  }

  /** The indices below `n`, in order. */
  function Identity(n: nat): (r: seq<int>)
    ensures |r| == n && forall j | 0 <= j < n :: r[j] == j
  {
    seq(n, j => j)
  }

  /** The indices of the moves a stage keeps, in order. */
  function KeptIndices(ms: seq<Move>, v: seq<int>): (r: seq<int>)
    requires |ms| > 0
    ensures Ascending(r) && forall j | 0 <= j < |r| :: 0 <= r[j] < |ms|
  {
    if |v| != |ms| then Identity(|ms|) else IndicesOf(v, MaxOf(v), |ms|)
  }

  /** A stage keeps the moves at its kept indices. */
  lemma KeepIsPick(ms: seq<Move>, v: seq<int>)
    requires |ms| > 0
    ensures Keep(ms, v) == Pick(ms, KeptIndices(ms, v))
  {
    if |v| != |ms| {
      assert Pick(ms, Identity(|ms|)) == ms;
    } else {
      PickIndicesIsKeep(ms, v, MaxOf(v), |ms|);
    }
  }

  /** The moves left after `n` stages are those left after any `m <= n` stages at strictly
      increasing indices: the elimination only drops moves and keeps the others in their
      order. */
  lemma {:induction false} SurvivorsSubsequence(n: nat, m: nat, moves: seq<Move>, rate: Rater) returns (idx: seq<int>)
    requires m <= n && |moves| > 0
    ensures Ascending(idx) && forall j | 0 <= j < |idx| :: 0 <= idx[j] < |SurvivorsAfter(m, moves, rate)|
    ensures SurvivorsAfter(n, moves, rate) == Pick(SurvivorsAfter(m, moves, rate), idx)
    decreases n
  {
    var base := SurvivorsAfter(m, moves, rate);
    if n == m {
      idx := Identity(|base|);
      assert Pick(base, idx) == base;
    } else {
      var outer := SurvivorsSubsequence(n - 1, m, moves, rate);
      var prev := SurvivorsAfter(n - 1, moves, rate);
      var inner;
      if |prev| == 1 {
        inner := Identity(1);
        assert Pick(prev, inner) == prev;
      } else {
        inner := KeptIndices(prev, rate(n - 1, prev));
        KeepIsPick(prev, rate(n - 1, prev));
      }
      assert SurvivorsAfter(n, moves, rate) == Pick(prev, inner);
      PickTwice(base, outer, inner);
      idx := Pick(outer, inner);
    }
  }

  /** The selected move is one of the moves. */
  lemma SelectChoosesAmong(moves: seq<Move>, a: AssessedState, first: seq<int>) returns (k: int)
    requires |moves| > 0
    ensures 0 <= k < |moves| && moves[k] == Select(moves, a, first)
  {
    k := SurvivorsNarrow(StageCount, 0, moves, Stages(a, first), 0);
  }

  /** With two or more moves the selected move is one the search stage rated best. */
  lemma SelectionKeepsSearchBest(moves: seq<Move>, a: AssessedState, first: seq<int>)
    requires |moves| > 1 && |first| == |moves|
    ensures exists k | 0 <= k < |moves| :: moves[k] == Select(moves, a, first) && first[k] == MaxOf(first)
  {
    var rate := Stages(a, first);
    assert SurvivorsAfter(1, moves, rate) == Keep(moves, first);
    var j := SurvivorsNarrow(StageCount, 1, moves, rate, 0);
    var k := KeptFrom(moves, first, j);
  }

  /** One stage's ratings of the surviving moves. */
  method RateMovesAtStage(stage: int, moves: seq<Move>, a: AssessedState) returns (ratings: seq<int>)
    requires 0 <= stage < StageCount
    requires |moves| > 0 && forall k | 0 <= k < |moves| :: OnGrid(moves[k])
    requires stage == 0 ==> moves == UTTT.LegalMoves(a.state)
    ensures |ratings| == |moves|
    ensures stage == 0 ==> MiniMaxRatings(a.state, |moves|, ratings)
    ensures stage > 0 ==> ratings == StageRatings(stage, moves, a)
  {
    if stage == 0 {
      ratings := RateMovesByMiniMaxAB(moves, a);
      assert a.state.round >= 9 ==> |Children(a.state)| == |moves|;
    } else if stage == 1 {
      ratings := RateMovesByMacroRelevance(moves, a);
    } else if stage == 2 {
      ratings := RateMovesByTTTStrats(moves, a);
    } else if stage == 3 {
      ratings := RateMovesByPosition(moves, a);
    } else {
      ratings := RateMovesByNextBoardPosition(moves, a);
    }
  }

  /** One pass of the selection loop: the stage rates the surviving moves and keeps the
      best rated ones; the search stage's ratings are returned as `first'`. */
  method RunStage(stage: int, moves: seq<Move>, a: AssessedState, ghost first: seq<int>)
    returns (survivors: seq<Move>, ghost first': seq<int>)
    requires 0 <= stage < StageCount
    requires |moves| > 0 && forall k | 0 <= k < |moves| :: OnGrid(moves[k])
    requires stage == 0 ==> moves == UTTT.LegalMoves(a.state)
    ensures stage == 0 ==> |first'| == |moves| && MiniMaxRatings(a.state, |moves|, first')
    ensures stage > 0 ==> first' == first
    ensures survivors == Keep(moves, Stages(a, first')(stage, moves))
    ensures forall k | 0 <= k < |survivors| :: OnGrid(survivors[k])
  {
    var moveRatings := RateMovesAtStage(stage, moves, a);
    first' := if stage == 0 then moveRatings else first;
    assert Stages(a, first')(stage, moves) == moveRatings;
    survivors := KeepBest(moves, moveRatings);
  }

  /** The moves rated best by `ratings`, in their order. */
  method KeepBest(moves: seq<Move>, ratings: seq<int>) returns (survivors: seq<Move>)
    requires |moves| > 0 && |ratings| == |moves| && forall k | 0 <= k < |moves| :: OnGrid(moves[k])
    ensures survivors == Keep(moves, ratings)
    ensures forall k | 0 <= k < |survivors| :: OnGrid(survivors[k])
  {
    var indices := BestRatingIndicesOfList(ratings);
    survivors := PickValuesAtIndicesOfList(moves, indices);
    PickIndicesIsKeep(moves, ratings, MaxOf(ratings), |moves|);
    assert forall k | 0 <= k < |survivors| :: survivors[k] == moves[indices[k]];
  }

  /** The main move selection. No move on a finished game; the only move when there is one;
      otherwise the move the five stages select, the search stage's ratings being `first`.
      The timeout is not read, as in the code. */
  method FindBestMove(state: State, timeout: int) returns (best: Option<Move>, ghost first: seq<int>)
    ensures best == Nothing <==> UTTT.LegalMoves(state) == []
    ensures best.Some? ==> best.value in UTTT.LegalMoves(state)
    ensures |UTTT.LegalMoves(state)| == 1 ==> best == Some(UTTT.LegalMoves(state)[0])
    ensures |UTTT.LegalMoves(state)| > 1 ==>
      && MiniMaxRatings(state, |UTTT.LegalMoves(state)|, first)
      && best == Some(Select(UTTT.LegalMoves(state), Assess(state), first))
  {
    var moves := UTTT.GetMoves(state);
    var assessedState := AssessState(state);
    first := [];
    if |moves| == 0 {
      return Nothing, first;
    }
    if |moves| == 1 {
      return Some(moves[0]), first;
    }
    var move;
    move, first := SelectMove(moves, assessedState);
    var k := SelectChoosesAmong(moves, assessedState, first);
    best := Some(move);
  }

  /** The stage loop of the main move selection, on two or more legal moves. */
  method SelectMove(moves: seq<Move>, a: AssessedState) returns (move: Move, ghost first: seq<int>)
    requires |moves| > 1 && moves == UTTT.LegalMoves(a.state)
    ensures |first| == |moves| && MiniMaxRatings(a.state, |moves|, first)
    ensures move == Select(moves, a, first)
  {
    var bestMoves := moves;
    first := [];
    var s := 0;
    StagedAtStart(moves, a);
    while s < StageCount
      invariant 0 <= s <= StageCount
      invariant Staged(s, moves, a, first, bestMoves)
    {
      var newBestMoves;
      ghost var before := first;
      newBestMoves, first := RunStage(s, bestMoves, a, first);
      StageAdvance(s, moves, a, before, first, bestMoves, newBestMoves);
      if |newBestMoves| == 1 {
        return newBestMoves[0], first;
      }
      bestMoves := newBestMoves;
      s := s + 1;
    }
    StagedAtEnd(moves, a, first, bestMoves);
    move := bestMoves[0];
  }

  /** What the stage loop keeps after `s` stages: two or more moves left, all on the grid,
      those SurvivorsAfter gives; and, once the search stage ran, its ratings. */
  ghost predicate Staged(s: nat, moves: seq<Move>, a: AssessedState, first: seq<int>, left: seq<Move>) {
    && |moves| > 1 && moves == UTTT.LegalMoves(a.state)
    && |left| > 1 && (forall k | 0 <= k < |left| :: OnGrid(left[k]))
    && (s > 0 ==> |first| == |moves| && MiniMaxRatings(a.state, |moves|, first))
    && left == SurvivorsAfter(s, moves, Stages(a, first))
  }

  /** Before any stage, every legal move is left. */
  lemma StagedAtStart(moves: seq<Move>, a: AssessedState)
    requires |moves| > 1 && moves == UTTT.LegalMoves(a.state)
    ensures Staged(0, moves, a, [], moves)
  {
    assert forall k | 0 <= k < |moves| :: moves[k] in UTTT.LegalMoves(a.state);
  }

  /** After all stages, the first move left is the one selected. */
  lemma StagedAtEnd(moves: seq<Move>, a: AssessedState, first: seq<int>, left: seq<Move>)
    requires Staged(StageCount, moves, a, first, left)
    ensures |first| == |moves| && MiniMaxRatings(a.state, |moves|, first)
    ensures left[0] == Select(moves, a, first)
  {
  }

  /** One pass of the stage loop: the moves stage `s` keeps are those left after `s + 1`
      stages, and when only one is left it is the one selected. */
  lemma StageAdvance(s: nat, moves: seq<Move>, a: AssessedState, before: seq<int>, after: seq<int>,
                     left: seq<Move>, kept: seq<Move>)
    requires s < StageCount && Staged(s, moves, a, before, left)
    requires s == 0 ==> |after| == |moves| && MiniMaxRatings(a.state, |moves|, after)
    requires s > 0 ==> after == before
    requires kept == Keep(left, Stages(a, after)(s, left))
    requires forall k | 0 <= k < |kept| :: OnGrid(kept[k])
    ensures |kept| > 0
    ensures |kept| > 1 ==> Staged(s + 1, moves, a, after, kept)
    ensures |kept| == 1 ==> |after| == |moves| && MiniMaxRatings(a.state, |moves|, after)
    ensures |kept| == 1 ==> kept[0] == Select(moves, a, after)
  {
    var rate := Stages(a, after);
    assert left == SurvivorsAfter(s, moves, rate);
    SurvivorsStep(s, moves, rate, left);
    if |kept| == 1 {
      SurvivorsSettle(StageCount, s + 1, moves, rate);
    }
  }
}
