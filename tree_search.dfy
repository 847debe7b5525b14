/** TreeSearch.h: the older generation's generic alpha-beta search. The evaluation takes
    the player it rates for, the children come from a function value, and the "whole
    tree was searched" flag, written through a pointer in the source, goes in and comes
    back out. */
module TreeSearch {
  import opened Common
  import opened Minimax

  /** The evaluation as seen by player `p`. */
  function Rated<T>(evaluate: (T, Player) -> int, p: Player): T -> int {
    t => evaluate(t, p)
  }

  /** Depth-limited minimax with alpha-beta pruning. The result is the outcome of
      Minimax.Search; the flag is cleared exactly when that search reached the depth
      limit on a node with children, and is otherwise passed through. */
  method MiniMaxAB<T>(branch: T, evaluate: (T, Player) -> int, findChildNodes: T -> seq<T>, depth: nat,
                      maximize: bool, p: Player, worstVal: int, bestVal: int, isFullTreeEvaluated: bool)
    returns (value: int, fullTree: bool)
    ensures var o := Search(Rated(evaluate, p), findChildNodes, branch, depth, maximize, worstVal, bestVal);
      value == o.value && fullTree == (isFullTreeEvaluated && o.full)
    ensures findChildNodes(branch) == [] ==> value == evaluate(branch, p) && fullTree == isFullTreeEvaluated
    ensures findChildNodes(branch) != [] && depth == 0 ==> value == evaluate(branch, p) && !fullTree
    decreases depth, 1
  {
    var children := findChildNodes(branch);
    fullTree := isFullTreeEvaluated;
    if |children| == 0 {
      value := evaluate(branch, p);
      return;
    }
    if depth == 0 {
      fullTree := false;
      value := evaluate(branch, p);
      return;
    }
    value, fullTree := ScanChildren(children, evaluate, findChildNodes, depth - 1, maximize, p, worstVal, bestVal, fullTree);
  }

  /** The loop of MiniMaxAB over the children `cs` of a node searched with `d` more levels
      below them: each child is searched in the current window, the window narrows, and
      the loop stops once the window is empty. */
  method ScanChildren<T>(cs: seq<T>, evaluate: (T, Player) -> int, findChildNodes: T -> seq<T>, d: nat,
                         maximize: bool, p: Player, worstVal: int, bestVal: int, isFullTreeEvaluated: bool)
    returns (value: int, fullTree: bool)
    ensures var o := Scan(Rated(evaluate, p), findChildNodes, cs, 0, d, maximize, worstVal, bestVal,
                          if maximize then worstVal else bestVal, true, 1);
      value == o.value && fullTree == (isFullTreeEvaluated && o.full)
    decreases d + 1, 0
  {
    ghost var eval := Rated(evaluate, p);
    ghost var target := Scan(eval, findChildNodes, cs, 0, d, maximize, worstVal, bestVal,
                             if maximize then worstVal else bestVal, true, 1);
    fullTree := isFullTreeEvaluated;
    var worst := worstVal;
    var best := bestVal;
    ghost var full := true;
    ghost var nodes: nat := 1;
    value := if maximize then worstVal else bestVal;
    var i := 0;
    while i < |cs|
      invariant 0 <= i <= |cs|
      invariant fullTree == (isFullTreeEvaluated && full)
      invariant Scan(eval, findChildNodes, cs, i, d, maximize, worst, best, value, full, nodes) == target
    {
      var childVal, childFull := MiniMaxAB(cs[i], evaluate, findChildNodes, d, !maximize, p, worst, best, fullTree);
      ghost var c := Search(eval, findChildNodes, cs[i], d, !maximize, worst, best);
      if maximize {
        if childVal > value { value := childVal; }
        if value > worst { worst := value; }
      } else {
        if childVal < value { value := childVal; }
        if value < best { best := value; }
      }
      fullTree := childFull;
      full := full && c.full;
      nodes := nodes + c.nodes;
      if worst >= best {
        assert target == Outcome(value, full, nodes);
        break;
      }
      i := i + 1;
    }
  }
}
