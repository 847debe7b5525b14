/** MiniMaxSearch.h: the newer generation's search object. It counts the calls of its
    alpha-beta search, remembers whether the last search was complete, and drives an
    iterative-deepening loop over the children of the root. The wall clock that ends that
    loop is replaced by a number of steps. */
module MiniMaxSearch {
  import opened Minimax

  /** The score a fully evaluated child keeps: a Loose (-1) has the search depth added, a
      Win (+1) has it subtracted, in that order; anything else is kept. */
  function Marked(score: int, depth: int): int {
    var s := if score == -1 then score + depth else score;
    if s == 1 then s - depth else s
  }

  /** From depth 3 on, a won line of play is kept as a score of at most -2 and a lost one
      as at least 2: the marking puts wins below draws and draws below losses. */
  lemma MarkingInvertsOutcomes(depth: int)
    requires depth >= 3
    ensures Marked(1, depth) == 1 - depth <= -2
    ensures Marked(-1, depth) == depth - 1 >= 2
    ensures Marked(1, depth) < Marked(0, depth) < Marked(-1, depth)
  {
  }

  /** A game lasts at most 81 moves, so no decided line of play is deeper than this. */
  const MaxPlies := 81

  /** The marking the comments at the adjustment describe: a decided score keeps its sign
      and grows in size the closer the outcome is, so the closest win rates highest and
      the closest loss lowest. The deepening loop keeps the marking as written. */
  function MarkedIntended(score: int, depth: int): (r: int)
    ensures score == 1 ==> r >= 1
    ensures score == -1 ==> r <= -1
    ensures score != 1 && score != -1 ==> r == score
  {
    var closeness := if depth < MaxPlies then MaxPlies - depth else 0;
    if score == 1 then 1 + closeness
    else if score == -1 then -1 - closeness
    else score
  }

  /** The intended marking keeps wins above draws and draws above losses at every depth,
      and among outcomes found within the game's length ranks a nearer win higher and a
      nearer loss lower. */
  lemma IntendedMarkingKeepsOutcomes(depth: int, deeper: int)
    requires depth < deeper <= MaxPlies
    ensures MarkedIntended(-1, depth) < MarkedIntended(0, depth) < MarkedIntended(1, depth)
    ensures MarkedIntended(1, deeper) < MarkedIntended(1, depth)
    ensures MarkedIntended(-1, depth) < MarkedIntended(-1, deeper)
  {
  }

  /** The calls made by searching every child in `cs` from the same window. */
  function TotalNodes<T>(eval: T -> int, kids: T -> seq<T>, cs: seq<T>, depth: nat, maximize: bool, alpha: int, beta: int): (n: nat)
    ensures n >= |cs|
  {
    if cs == [] then 0
    else
      TotalNodes(eval, kids, cs[..|cs| - 1], depth, maximize, alpha, beta)
      + Search(eval, kids, cs[|cs| - 1], depth, maximize, alpha, beta).nodes
  }

  /** A child last searched at depth `d` whose search either was complete or found a
      decided score; the score it keeps is the marked one. */
  ghost predicate Settled<T>(eval: T -> int, kids: T -> seq<T>, child: T, d: int, score: int) {
    3 <= d && var o := Search(eval, kids, child, d, false, -1, 1);
    (o.full || o.value != 0) && score == Marked(o.value, d)
  }

  /** The deepening loop's bookkeeping at search depth `depth`: every settled child was
      settled at a depth not beyond it and keeps its marked score; the others score 0. */
  ghost predicate Kept<T>(eval: T -> int, kids: T -> seq<T>, children: seq<T>, scores: seq<int>, settled: seq<bool>, depths: seq<int>, depth: int) {
    |scores| == |settled| == |depths| == |children|
    && forall k | 0 <= k < |children| ::
      if settled[k] then depths[k] <= depth && Settled(eval, kids, children[k], depths[k], scores[k])
      else scores[k] == 0
  }

  /** Every search of `child` from depth 3 up to, not including, `upTo` was cut short at the
      depth limit and scored 0: the child stayed unsettled at each of those depths. */
  ghost predicate Missed<T>(eval: T -> int, kids: T -> seq<T>, child: T, upTo: int) {
    forall d: nat | 3 <= d < upTo :: !Search(eval, kids, child, d, false, -1, 1).full && Search(eval, kids, child, d, false, -1, 1).value == 0
  }

  /** The depth the deepening loop is at for child `k` when it stands at child `branch` of
      the round at `depth`: the children before `branch` have had their visit of this round. */
  function Reached(k: int, depth: int, branch: int): int {
    if k < branch then depth + 1 else depth
  }

  /** The search history of the deepening loop: a settled child was unsettled at every
      depth before the one it was settled at, and an unsettled one at every depth it was
      visited at so far. */
  ghost predicate History<T>(eval: T -> int, kids: T -> seq<T>, children: seq<T>, settled: seq<bool>, depths: seq<int>, depth: int, branch: int) {
    |settled| == |depths| == |children|
    && forall k | 0 <= k < |children| ::
      Missed(eval, kids, children[k], if settled[k] then depths[k] else Reached(k, depth, branch))
  }

  /** A visit to child `i` at `depth` extends the history: the child either settles at
      this depth, after being unsettled at every depth before, or stays unsettled with one
      more cut-short search; no other child changes. */
  lemma HistoryStep<T>(eval: T -> int, kids: T -> seq<T>, children: seq<T>, settled: seq<bool>, depths: seq<int>,
                       settled': seq<bool>, depths': seq<int>, depth: nat, i: int)
    requires History(eval, kids, children, settled, depths, depth, i) && 0 <= i < |children|
    requires |settled'| == |depths'| == |children|
    requires forall k | 0 <= k < |children| && k != i :: settled'[k] == settled[k] && depths'[k] == depths[k]
    requires settled[i] ==> settled'[i] && depths'[i] == depths[i]
    requires !settled[i] ==> var o := Search(eval, kids, children[i], depth, false, -1, 1);
      (settled'[i] <==> o.full || o.value != 0) && (settled'[i] ==> depths'[i] == depth)
    ensures History(eval, kids, children, settled', depths', depth, i + 1)
  {
    forall k | 0 <= k < |children|
      ensures Missed(eval, kids, children[k], if settled'[k] then depths'[k] else Reached(k, depth, i + 1))
    {
      if k != i {
        assert Reached(k, depth, i + 1) == Reached(k, depth, i);
      } else if !settled[i] {
        assert Missed(eval, kids, children[k], Reached(k, depth, i));
      }
    }
  }

  /** Passing the last child of a round is starting the next round at its first child. */
  lemma HistoryWrap<T>(eval: T -> int, kids: T -> seq<T>, children: seq<T>, settled: seq<bool>, depths: seq<int>, depth: int)
    requires History(eval, kids, children, settled, depths, depth, |children|)
    ensures History(eval, kids, children, settled, depths, depth + 1, 0)
  {
    forall k | 0 <= k < |children|
      ensures Reached(k, depth, |children|) == Reached(k, depth + 1, 0)
    {
    }
  }

  /** The visits made by `r` full rounds over `n` children. */
  function Rounds(r: nat, n: nat): nat {
    if r == 0 then 0 else Rounds(r - 1, n) + n
  }

  lemma {:induction false} RoundsArePasses(r: nat, n: nat)
    ensures Rounds(r, n) == r * n
  {
    if r > 0 {
      RoundsArePasses(r - 1, n);
    }
  }

  /** The calls spent on searching `child` at every depth from 3 up to, not including, `upTo`. */
  ghost function ChildNodes<T>(eval: T -> int, kids: T -> seq<T>, child: T, upTo: int): nat
    decreases upTo
  {
    if upTo <= 3 then 0
    else ChildNodes(eval, kids, child, upTo - 1) + Search(eval, kids, child, upTo - 1, false, -1, 1).nodes
  }

  /** The depth below which child `k` has been searched: one past the depth it settled
      at, or the depth the loop has reached for it. */
  function SearchedUpTo(settled: seq<bool>, depths: seq<int>, depth: int, branch: int, k: int): int
    requires 0 <= k < |settled| == |depths|
  {
    if settled[k] then depths[k] + 1 else Reached(k, depth, branch)
  }

  /** The calls the deepening loop has spent on the first `m` children, given its settle
      history: each child searched once at every depth from 3 until it settled. */
  ghost function Spent<T>(eval: T -> int, kids: T -> seq<T>, children: seq<T>, settled: seq<bool>, depths: seq<int>,
                          depth: int, branch: int, m: nat): nat
    requires m <= |children| == |settled| == |depths|
  {
    if m == 0 then 0
    else Spent(eval, kids, children, settled, depths, depth, branch, m - 1)
         + ChildNodes(eval, kids, children[m - 1], SearchedUpTo(settled, depths, depth, branch, m - 1))
  }

  /** Two histories that agree on how far every child has been searched, except child
      `i`, spend the same calls but for child `i`'s. */
  lemma {:induction false} SpentDiffers<T>(eval: T -> int, kids: T -> seq<T>, children: seq<T>,
                                           settled: seq<bool>, depths: seq<int>, depth: int, branch: int,
                                           settled': seq<bool>, depths': seq<int>, depth': int, branch': int,
                                           i: int, m: nat)
    requires m <= |children| == |settled| == |depths| == |settled'| == |depths'|
    requires forall k | 0 <= k < |children| && k != i ::
      SearchedUpTo(settled', depths', depth', branch', k) == SearchedUpTo(settled, depths, depth, branch, k)
    ensures Spent(eval, kids, children, settled', depths', depth', branch', m)
      == Spent(eval, kids, children, settled, depths, depth, branch, m)
         + (if 0 <= i < m
            then ChildNodes(eval, kids, children[i], SearchedUpTo(settled', depths', depth', branch', i))
                 - ChildNodes(eval, kids, children[i], SearchedUpTo(settled, depths, depth, branch, i))
            else 0)
  {
    if m > 0 {
      SpentDiffers(eval, kids, children, settled, depths, depth, branch, settled', depths', depth', branch', i, m - 1);
    }
  }

  /** Before the first visit nothing has been spent. */
  lemma {:induction false} SpentAtStart<T>(eval: T -> int, kids: T -> seq<T>, children: seq<T>, settled: seq<bool>, depths: seq<int>, m: nat)
    requires m <= |children| == |settled| == |depths|
    requires forall k | 0 <= k < |children| :: !settled[k]
    ensures Spent(eval, kids, children, settled, depths, 3, 0, m) == 0
  {
    if m > 0 {
      SpentAtStart(eval, kids, children, settled, depths, m - 1);
    }
  }

  /** A visit to child `i` at `depth` adds to the calls spent exactly that visit's search
      when the child was unsettled, and nothing when it was settled. */
  lemma SpentStep<T>(eval: T -> int, kids: T -> seq<T>, children: seq<T>, settled: seq<bool>, depths: seq<int>,
                     settled': seq<bool>, depths': seq<int>, depth: nat, i: int)
    requires 3 <= depth && 0 <= i < |children| == |settled| == |depths| == |settled'| == |depths'|
    requires forall k | 0 <= k < |children| && k != i :: settled'[k] == settled[k] && depths'[k] == depths[k]
    requires settled[i] ==> settled'[i] && depths'[i] == depths[i]
    requires !settled[i] && settled'[i] ==> depths'[i] == depth
    ensures Spent(eval, kids, children, settled', depths', depth, i + 1, |children|)
      == Spent(eval, kids, children, settled, depths, depth, i, |children|)
         + (if settled[i] then 0 else Search(eval, kids, children[i], depth, false, -1, 1).nodes)
  {
    forall k | 0 <= k < |children| && k != i
      ensures SearchedUpTo(settled', depths', depth, i + 1, k) == SearchedUpTo(settled, depths, depth, i, k)
    {
    }
    SpentDiffers(eval, kids, children, settled, depths, depth, i, settled', depths', depth, i + 1, i, |children|);
  }

  /** Passing the last child of a round changes nothing spent. */
  lemma SpentWrap<T>(eval: T -> int, kids: T -> seq<T>, children: seq<T>, settled: seq<bool>, depths: seq<int>, depth: int)
    requires |children| == |settled| == |depths|
    ensures Spent(eval, kids, children, settled, depths, depth + 1, 0, |children|)
      == Spent(eval, kids, children, settled, depths, depth, |children|, |children|)
  {
    SpentDiffers(eval, kids, children, settled, depths, depth, |children|, settled, depths, depth + 1, 0, -1, |children|);
  }

  /** With every evaluation in [-1, 1], a score from the window [-1, 1] is the minimax value. */
  lemma ScoresAreValues<T(!new)>(eval: T -> int, kids: T -> seq<T>, children: seq<T>, depth: nat, scores: seq<int>)
    requires |scores| == |children|
    requires forall k | 0 <= k < |children| :: scores[k] == Search(eval, kids, children[k], depth, false, -1, 1).value
    ensures Bounded(eval, -1, 1) ==> forall k | 0 <= k < |scores| :: scores[k] == Value(eval, kids, children[k], depth, false)
  {
    if Bounded(eval, -1, 1) {
      forall k | 0 <= k < |scores|
        ensures scores[k] == Value(eval, kids, children[k], depth, false)
      {
        ExhaustiveWindow(eval, kids, children[k], depth, false, -1, 1);
      }
    }
  }

  /** After `r` full rounds and `c` more visits of a round of `n`, the visit count lies in
      round r. */
  lemma PassesInRound(r: nat, n: nat, c: nat)
    requires c < n
    ensures r * n <= Rounds(r, n) + c < (r + 1) * n
  {
    RoundsArePasses(r, n);
  }

  class MiniMaxSearch<T(!new)> {
    const evaluateNode: T -> int
    const findChildNodes: T -> seq<T>
    var nodesTraversed: int
    var searchDepth: int
    var fullSearchDone: bool

    constructor (evaluateEndNode: T -> int, findChildNodes: T -> seq<T>)
      ensures evaluateNode == evaluateEndNode && this.findChildNodes == findChildNodes
      ensures nodesTraversed == 0 && searchDepth == 2 && !fullSearchDone
    {
      evaluateNode := evaluateEndNode;
      this.findChildNodes := findChildNodes;
      nodesTraversed := 0;
      searchDepth := 2;
      fullSearchDone := false;
    }

    /** Alpha-beta search as in TreeSearch.h, counting one node per call and clearing
        `fullSearchDone` when it stops at the depth limit on a node with children. */
    method MiniMaxAB(branch: T, depth: nat, maximize: bool, worstVal: int, bestVal: int) returns (value: int)
      modifies this
      ensures var o := Search(evaluateNode, findChildNodes, branch, depth, maximize, worstVal, bestVal);
        value == o.value
        && nodesTraversed == old(nodesTraversed) + o.nodes
        && fullSearchDone == (old(fullSearchDone) && o.full)
      ensures searchDepth == old(searchDepth)
      decreases depth, 1
    {
      nodesTraversed := nodesTraversed + 1;
      var children := findChildNodes(branch);
      if |children| == 0 {
        return evaluateNode(branch);
      }
      if depth == 0 {
        fullSearchDone := false;
        return evaluateNode(branch);
      }
      value := SearchChildren(children, depth - 1, maximize, worstVal, bestVal);
    }

    /** The loop of MiniMaxAB over the children `cs` of a node searched with `d` more levels
        below them: each child is searched in the current window, the window narrows, and
        the loop stops once the window is empty. */
    method SearchChildren(cs: seq<T>, d: nat, maximize: bool, worstVal: int, bestVal: int) returns (value: int)
      modifies this
      ensures var o := Scan(evaluateNode, findChildNodes, cs, 0, d, maximize, worstVal, bestVal,
                            if maximize then worstVal else bestVal, true, 1);
        value == o.value
        && nodesTraversed == old(nodesTraversed) + o.nodes - 1
        && fullSearchDone == (old(fullSearchDone) && o.full)
      ensures searchDepth == old(searchDepth)
      decreases d + 1, 0
    {
      ghost var target := Scan(evaluateNode, findChildNodes, cs, 0, d, maximize, worstVal, bestVal,
                               if maximize then worstVal else bestVal, true, 1);
      ghost var full0 := old(fullSearchDone);
      ghost var nodes0 := old(nodesTraversed);
      var worst := worstVal;
      var best := bestVal;
      ghost var full := true;
      ghost var nodes: nat := 1;
      value := if maximize then worstVal else bestVal;
      var i := 0;
      while i < |cs|
        invariant 0 <= i <= |cs|
        invariant fullSearchDone == (full0 && full)
        invariant nodesTraversed == nodes0 + nodes - 1
        invariant searchDepth == old(searchDepth)
        invariant Scan(evaluateNode, findChildNodes, cs, i, d, maximize, worst, best, value, full, nodes) == target
      {
        var childVal := MiniMaxAB(cs[i], d, !maximize, worst, best);
        ghost var c := Search(evaluateNode, findChildNodes, cs[i], d, !maximize, worst, best);
        if maximize {
          value := Max(value, childVal);
          worst := Max(worst, value);
        } else {
          value := Min(value, childVal);
          best := Min(best, value);
        }
        full := full && c.full;
        nodes := nodes + c.nodes;
        if worst >= best {
          assert target == Outcome(value, full, nodes);
          break;
        }
        i := i + 1;
      }
    }

    /** One score per child, in child order, each from a minimizing search of depth
        `maxDepth` in the window [-1, 1]; when every evaluation lies in [-1, 1] these are
        the minimax values. */
    method EvaluateBranch(node: T, maxDepth: nat) returns (scores: seq<int>)
      modifies this
      ensures var children := findChildNodes(node);
        |scores| == |children|
        && (forall k | 0 <= k < |children| :: scores[k] == Search(evaluateNode, findChildNodes, children[k], maxDepth, false, -1, 1).value)
        && (fullSearchDone <==> forall k | 0 <= k < |children| :: Search(evaluateNode, findChildNodes, children[k], maxDepth, false, -1, 1).full)
        && nodesTraversed == TotalNodes(evaluateNode, findChildNodes, children, maxDepth, false, -1, 1)
      ensures Bounded(evaluateNode, -1, 1) ==> forall k | 0 <= k < |scores| ::
        scores[k] == Value(evaluateNode, findChildNodes, findChildNodes(node)[k], maxDepth, false)
      ensures searchDepth == old(searchDepth)
    {
      scores := [];
      fullSearchDone := true;
      nodesTraversed := 0;
      var children := findChildNodes(node);
      var i := 0;
      while i < |children|
        invariant 0 <= i <= |children|
        invariant |scores| == i
        invariant forall k | 0 <= k < i :: scores[k] == Search(evaluateNode, findChildNodes, children[k], maxDepth, false, -1, 1).value
        invariant fullSearchDone <==> forall k | 0 <= k < i :: Search(evaluateNode, findChildNodes, children[k], maxDepth, false, -1, 1).full
        invariant nodesTraversed == TotalNodes(evaluateNode, findChildNodes, children[..i], maxDepth, false, -1, 1)
        invariant searchDepth == old(searchDepth)
      {
        var score := MiniMaxAB(children[i], maxDepth, false, -1, 1);
        assert children[..i + 1][..i] == children[..i];
        assert TotalNodes(evaluateNode, findChildNodes, children[..i + 1], maxDepth, false, -1, 1)
          == TotalNodes(evaluateNode, findChildNodes, children[..i], maxDepth, false, -1, 1)
             + Search(evaluateNode, findChildNodes, children[i], maxDepth, false, -1, 1).nodes;
        scores := scores + [score];
        i := i + 1;
      }
      assert children[..i] == children;
      ScoresAreValues(evaluateNode, findChildNodes, children, maxDepth, scores);
    }

    /** One visit of the deepening loop to child `i`: an unsettled child gets a minimizing
        search at the current depth in the window [-1, 1], and is settled, with its score
        marked, exactly when that search was complete or found a decided score. A settled
        child is left alone and not searched again. No other child changes. */
    method Visit(children: seq<T>, scoreArray: array<int>, evaluated: array<bool>, ghost depths: seq<int>, i: nat)
      returns (ghost depths': seq<int>)
      requires searchDepth >= 3 && i < |children|
      requires Kept(evaluateNode, findChildNodes, children, scoreArray[..], evaluated[..], depths, searchDepth)
      modifies this, scoreArray, evaluated
      ensures searchDepth == old(searchDepth)
      ensures Kept(evaluateNode, findChildNodes, children, scoreArray[..], evaluated[..], depths', searchDepth)
      ensures scoreArray[..] == old(scoreArray[..])[i := scoreArray[i]]
      ensures evaluated[..] == old(evaluated[..])[i := evaluated[i]]
      ensures old(evaluated[i]) ==>
        evaluated[i] && scoreArray[i] == old(scoreArray[i]) && depths' == depths
        && nodesTraversed == old(nodesTraversed) && fullSearchDone == old(fullSearchDone)
      ensures !old(evaluated[i]) ==>
        var o := Search(evaluateNode, findChildNodes, children[i], searchDepth, false, -1, 1);
        (evaluated[i] <==> o.full || o.value != 0)
        && depths' == (if evaluated[i] then depths[i := searchDepth] else depths)
        && nodesTraversed == old(nodesTraversed) + o.nodes && fullSearchDone == o.full
    {
      depths' := depths;
      if !evaluated[i] {
        fullSearchDone := true;
        var score := MiniMaxAB(children[i], searchDepth, false, -1, 1);
        var settledNow := fullSearchDone || score != 0;
        if settledNow {
          evaluated[i] := true;
          depths' := depths[i := searchDepth];
          if score == -1 { score := score + searchDepth; }
          if score == 1 { score := score - searchDepth; }
        }
        scoreArray[i] := score;
      }
    }

    /** One step of the deepening loop: the visit to the current child, then the pointer
        moves on to the next child, or back to the first one a level deeper after the last. */
    method Advance(children: seq<T>, scoreArray: array<int>, evaluated: array<bool>, ghost depths: seq<int>, branch: nat)
      returns (ghost depths': seq<int>, next: nat)
      requires searchDepth >= 3 && branch < |children|
      requires Kept(evaluateNode, findChildNodes, children, scoreArray[..], evaluated[..], depths, searchDepth)
      requires History(evaluateNode, findChildNodes, children, evaluated[..], depths, searchDepth, branch)
      modifies this, scoreArray, evaluated
      ensures Kept(evaluateNode, findChildNodes, children, scoreArray[..], evaluated[..], depths', searchDepth)
      ensures History(evaluateNode, findChildNodes, children, evaluated[..], depths', searchDepth, next)
      ensures if branch == |children| - 1 then next == 0 && searchDepth == old(searchDepth) + 1
              else next == branch + 1 && searchDepth == old(searchDepth)
      ensures nodesTraversed - Spent(evaluateNode, findChildNodes, children, evaluated[..], depths', searchDepth, next, |children|)
        == old(nodesTraversed) - Spent(evaluateNode, findChildNodes, children, old(evaluated[..]), depths, old(searchDepth), branch, |children|)
    {
      ghost var settledBefore := evaluated[..];
      depths' := Visit(children, scoreArray, evaluated, depths, branch);
      HistoryStep(evaluateNode, findChildNodes, children, settledBefore, depths,
                  evaluated[..], depths', searchDepth, branch);
      SpentStep(evaluateNode, findChildNodes, children, settledBefore, depths, evaluated[..], depths', searchDepth, branch);
      if branch == |children| - 1 {
        HistoryWrap(evaluateNode, findChildNodes, children, evaluated[..], depths', searchDepth);
        SpentWrap(evaluateNode, findChildNodes, children, evaluated[..], depths', searchDepth);
        searchDepth := searchDepth + 1;
        next := 0;
      } else {
        next := branch + 1;
      }
    }

    /** Iterative deepening over the root's children, one child per step in round-robin
        order from depth 3, the depth growing by one each time the pointer wraps to the
        first child. A child already settled is not searched again. The loop runs at
        least once and then while `steps` allow and some child is unsettled. Returns one
        score per child: a settled child's marked score, 0 for the others. A child is
        settled at the first depth its search completes or finds a decided score, and an
        unsettled child's every search so far was cut short with a score of 0. */
    method EvaluateBranchUntilTimeout(node: T, steps: nat)
      returns (scores: seq<int>, ghost settled: seq<bool>, ghost depths: seq<int>, ghost passes: nat, ghost branch: nat)
      requires |findChildNodes(node)| > 0
      modifies this
      ensures var n := |findChildNodes(node)|;
        |scores| == n && |settled| == n && |depths| == n
        && (searchDepth - 3) * n <= passes < (searchDepth - 2) * n
        && 1 <= passes && (passes < steps ==> forall k | 0 <= k < n :: settled[k])
        && passes <= (if steps == 0 then 1 else steps)
      ensures forall k | 0 <= k < |scores| ::
        if settled[k] then depths[k] <= searchDepth && Settled(evaluateNode, findChildNodes, findChildNodes(node)[k], depths[k], scores[k])
        else scores[k] == 0
      ensures fullSearchDone <==> forall k | 0 <= k < |settled| :: settled[k]
      ensures passes == (searchDepth - 3) * |findChildNodes(node)| + branch
      ensures History(evaluateNode, findChildNodes, findChildNodes(node), settled, depths, searchDepth, branch)
      ensures nodesTraversed == Spent(evaluateNode, findChildNodes, findChildNodes(node), settled, depths, searchDepth, branch, |findChildNodes(node)|)
    {
      nodesTraversed := 0;
      var children := findChildNodes(node);
      var n := |children|;
      var scoreArray := new int[n](_ => 0);
      var isChildFullyEvaluated := new bool[n](_ => false);
      depths, passes, branch := Deepen(children, scoreArray, isChildFullyEvaluated, steps);
      PassesInRound(searchDepth - 3, n, branch);
      RoundsArePasses(searchDepth - 3, n);
      fullSearchDone := forall k | 0 <= k < n :: isChildFullyEvaluated[k];
      scores := scoreArray[..];
      settled := isChildFullyEvaluated[..];
    }

    /** The deepening loop itself, from depth 3 and the first child, over fresh score and
        settled arrays. */
    method Deepen(children: seq<T>, scoreArray: array<int>, evaluated: array<bool>, steps: nat)
      returns (ghost depths: seq<int>, ghost passes: nat, ghost branch: nat)
      requires |children| > 0 && scoreArray.Length == evaluated.Length == |children|
      requires forall k | 0 <= k < |children| :: scoreArray[k] == 0 && !evaluated[k]
      modifies this, scoreArray, evaluated
      ensures searchDepth >= 3 && branch < |children| && passes == Rounds(searchDepth - 3, |children|) + branch
      ensures 1 <= passes && (passes < steps ==> forall k | 0 <= k < |children| :: evaluated[k])
      ensures passes <= if steps == 0 then 1 else steps
      ensures Kept(evaluateNode, findChildNodes, children, scoreArray[..], evaluated[..], depths, searchDepth)
      ensures History(evaluateNode, findChildNodes, children, evaluated[..], depths, searchDepth, branch)
      ensures nodesTraversed == old(nodesTraversed) + Spent(evaluateNode, findChildNodes, children, evaluated[..], depths, searchDepth, branch, |children|)
    {
      var n := |children|;
      depths := seq(n, _ => 0);
      var currentBranch := 0;
      searchDepth := 3;
      passes := 0;
      var elapsed := 0;
      var running := true;
      SpentAtStart(evaluateNode, findChildNodes, children, evaluated[..], depths, n);
      while running
        invariant 0 <= currentBranch < n
        invariant elapsed == passes
        invariant searchDepth >= 3 && passes == Rounds(searchDepth - 3, n) + currentBranch
        invariant !running ==> 1 <= passes && (passes < steps ==> forall k | 0 <= k < n :: evaluated[k])
        invariant running ==> passes == 0 || passes < steps
        invariant passes <= if steps == 0 then 1 else steps
        invariant Kept(evaluateNode, findChildNodes, children, scoreArray[..], evaluated[..], depths, searchDepth)
        invariant History(evaluateNode, findChildNodes, children, evaluated[..], depths, searchDepth, currentBranch)
        invariant nodesTraversed == old(nodesTraversed) + Spent(evaluateNode, findChildNodes, children, evaluated[..], depths, searchDepth, currentBranch, n)
        decreases (if running then 1 else 0) + (if passes < steps then steps - passes else 0)
      {
        ghost var round := searchDepth - 3;
        depths, currentBranch := Advance(children, scoreArray, evaluated, depths, currentBranch);
        assert searchDepth - 3 > round ==> Rounds(searchDepth - 3, n) == Rounds(round, n) + n;
        passes := passes + 1;
        elapsed := elapsed + 1;
        var allSettled := forall k | 0 <= k < n :: evaluated[k];
        running := elapsed < steps && !allSettled;
      }
      branch := currentBranch;
    }

    function GetLastSearchFullyEvaluated(): (r: bool)
      reads this
      ensures r == fullSearchDone
    {
      fullSearchDone
    }

    function GetLastSearchNumNodesTraversed(): (r: int)
      reads this
      ensures r == nodesTraversed
    {
      nodesTraversed
    }

    function GetLastSearchDepth(): (r: int)
      reads this
      ensures r == searchDepth
    {
      searchDepth
    }
  }
}
