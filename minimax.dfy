/** The game-tree search shared by both generations (TreeSearch.h, MiniMaxSearch.h),
    stated over an arbitrary node type with the evaluation and the child generator as
    function values: plain depth-limited minimax, and the outcome of the alpha-beta
    search as the source runs it (the score, whether it ever stopped at the depth limit
    on a node with children, and how many calls it made). */
module Minimax {

  function Max(a: int, b: int): int { if a < b then b else a }

  function Min(a: int, b: int): int { if a < b then a else b }

  /** Plain depth-limited minimax: a node without children, or one at depth 0, is worth
      its evaluation; otherwise the best of its children for the side to move, the
      children being searched with the other side to move and one level less. */
  function Value<T>(eval: T -> int, kids: T -> seq<T>, n: T, depth: nat, maximize: bool): int
    decreases depth, 1, 0
  {
    var cs := kids(n);
    if cs == [] || depth == 0 then eval(n)
    else Extreme(eval, kids, cs, |cs|, depth - 1, maximize)
  }

  /** The largest (or smallest) minimax value among the first `k` children. */
  function Extreme<T>(eval: T -> int, kids: T -> seq<T>, cs: seq<T>, k: nat, d: nat, maximize: bool): int
    requires 1 <= k <= |cs|
    decreases d + 1, 0, k
  {
    var v := Value(eval, kids, cs[k - 1], d, !maximize);
    if k == 1 then v
    else if maximize then Max(Extreme(eval, kids, cs, k - 1, d, maximize), v)
    else Min(Extreme(eval, kids, cs, k - 1, d, maximize), v)
  }

  /** What one alpha-beta call produces: its score, whether the subtree it searched never
      stopped at the depth limit on a node with children, and how many calls it made,
      itself included. */
  datatype Outcome = Outcome(value: int, full: bool, nodes: nat)

  /** The alpha-beta search of the source, as a function: a node without children is
      evaluated; a node with children at depth 0 is evaluated and marks the search as
      cut short; otherwise the children are scanned in order. */
  function Search<T>(eval: T -> int, kids: T -> seq<T>, n: T, depth: nat, maximize: bool, alpha: int, beta: int): (o: Outcome)
    ensures o.nodes >= 1
    decreases depth, 1, 0
  {
    var cs := kids(n);
    if cs == [] then Outcome(eval(n), true, 1)
    else if depth == 0 then Outcome(eval(n), false, 1)
    else Scan(eval, kids, cs, 0, depth - 1, maximize, alpha, beta, if maximize then alpha else beta, true, 1)
  }

  /** The child loop from child `i` on: a maximizing node raises its value and `alpha`, a
      minimizing node lowers its value and `beta`, and the loop stops once alpha >= beta. */
  function Scan<T>(eval: T -> int, kids: T -> seq<T>, cs: seq<T>, i: nat, d: nat, maximize: bool,
                   alpha: int, beta: int, value: int, full: bool, nodes: nat): (o: Outcome)
    requires i <= |cs|
    ensures o.nodes >= nodes
    decreases d + 1, 0, |cs| - i
  {
    if i == |cs| then Outcome(value, full, nodes)
    else
      var c := Search(eval, kids, cs[i], d, !maximize, alpha, beta);
      var v := if maximize then Max(value, c.value) else Min(value, c.value);
      var a := if maximize then Max(alpha, v) else alpha;
      var b := if maximize then beta else Min(beta, v);
      if a >= b then Outcome(v, full && c.full, nodes + c.nodes)
      else Scan(eval, kids, cs, i + 1, d, maximize, a, b, v, full && c.full, nodes + c.nodes)
  }

  /** The alpha-beta guarantee relating a search result `r` to the true value `v` in the
      window (alpha, beta): exact inside the window, on the same side outside it. */
  predicate Agrees(r: int, v: int, alpha: int, beta: int) {
    (v <= alpha ==> r <= alpha) && (beta <= v ==> beta <= r) && (alpha < v < beta ==> r == v)
  }

  /** Each child's value is bounded by the extreme over any prefix that contains it. */
  lemma {:induction false} ExtremeCovers<T>(eval: T -> int, kids: T -> seq<T>, cs: seq<T>, k: nat, d: nat, maximize: bool, j: nat)
    requires j < k <= |cs|
    ensures maximize ==> Value(eval, kids, cs[j], d, !maximize) <= Extreme(eval, kids, cs, k, d, maximize)
    ensures !maximize ==> Extreme(eval, kids, cs, k, d, maximize) <= Value(eval, kids, cs[j], d, !maximize)
  {
    if j < k - 1 {
      ExtremeCovers(eval, kids, cs, k - 1, d, maximize, j);
    }
  }

  /** Soundness of alpha-beta: within a non-empty window the search agrees with plain minimax. */
  lemma {:induction false} SearchAgrees<T>(eval: T -> int, kids: T -> seq<T>, n: T, depth: nat, maximize: bool, alpha: int, beta: int)
    requires alpha < beta
    ensures Agrees(Search(eval, kids, n, depth, maximize, alpha, beta).value, Value(eval, kids, n, depth, maximize), alpha, beta)
    decreases depth, 1, 0
  {
    var cs := kids(n);
    if cs != [] && depth > 0 {
      if maximize {
        ScanAgreesMax(eval, kids, cs, 0, depth - 1, alpha, alpha, beta);
      } else {
        ScanAgreesMin(eval, kids, cs, 0, depth - 1, beta, alpha, beta);
      }
    }
  }

  /** The maximizing child loop: its value and alpha coincide and equal the best child so far,
      raised to the original alpha `alpha0`. */
  lemma {:induction false} ScanAgreesMax<T>(eval: T -> int, kids: T -> seq<T>, cs: seq<T>, i: nat, d: nat,
                                            alpha0: int, alpha: int, beta: int)
    requires i <= |cs| && 1 <= |cs|
    requires alpha0 <= alpha < beta
    requires i == 0 ==> alpha == alpha0
    requires i > 0 ==> alpha == Max(alpha0, Extreme(eval, kids, cs, i, d, true))
    ensures forall full: bool, nodes: nat :: Agrees(Scan(eval, kids, cs, i, d, true, alpha, beta, alpha, full, nodes).value,
      Extreme(eval, kids, cs, |cs|, d, true), alpha0, beta)
    decreases d + 1, 0, |cs| - i
  {
    var e := Extreme(eval, kids, cs, |cs|, d, true);
    if i < |cs| {
      var vi := Value(eval, kids, cs[i], d, false);
      var c := Search(eval, kids, cs[i], d, false, alpha, beta);
      SearchAgrees(eval, kids, cs[i], d, false, alpha, beta);
      ExtremeCovers(eval, kids, cs, |cs|, d, true, i);
      var v := Max(alpha, c.value);
      if v < beta {
        assert Max(alpha0, Extreme(eval, kids, cs, i + 1, d, true)) == v;
        ScanAgreesMax(eval, kids, cs, i + 1, d, alpha0, v, beta);
      }
    }
  }

  /** The minimizing child loop, symmetric to ScanAgreesMax with beta in the role of alpha. */
  lemma {:induction false} ScanAgreesMin<T>(eval: T -> int, kids: T -> seq<T>, cs: seq<T>, i: nat, d: nat,
                                            beta0: int, alpha: int, beta: int)
    requires i <= |cs| && 1 <= |cs|
    requires alpha < beta <= beta0
    requires i == 0 ==> beta == beta0
    requires i > 0 ==> beta == Min(beta0, Extreme(eval, kids, cs, i, d, false))
    ensures forall full: bool, nodes: nat :: Agrees(Scan(eval, kids, cs, i, d, false, alpha, beta, beta, full, nodes).value,
      Extreme(eval, kids, cs, |cs|, d, false), alpha, beta0)
    decreases d + 1, 0, |cs| - i
  {
    var e := Extreme(eval, kids, cs, |cs|, d, false);
    if i < |cs| {
      var vi := Value(eval, kids, cs[i], d, true);
      var c := Search(eval, kids, cs[i], d, true, alpha, beta);
      SearchAgrees(eval, kids, cs[i], d, true, alpha, beta);
      ExtremeCovers(eval, kids, cs, |cs|, d, false, i);
      var v := Min(beta, c.value);
      if alpha < v {
        assert Min(beta0, Extreme(eval, kids, cs, i + 1, d, false)) == v;
        ScanAgreesMin(eval, kids, cs, i + 1, d, beta0, alpha, v);
      }
    }
  }

  /** Every evaluation lies in [lo, hi]. */
  ghost predicate Bounded<T(!new)>(eval: T -> int, lo: int, hi: int) {
    forall t :: lo <= eval(t) <= hi
  }

  /** With every evaluation and both window ends in [lo, hi], so is the search result. */
  lemma {:induction false} SearchBounded<T(!new)>(eval: T -> int, kids: T -> seq<T>, n: T, depth: nat, maximize: bool,
                                            alpha: int, beta: int, lo: int, hi: int)
    requires Bounded(eval, lo, hi)
    requires lo <= alpha <= hi && lo <= beta <= hi
    ensures lo <= Search(eval, kids, n, depth, maximize, alpha, beta).value <= hi
    decreases depth, 1, 0
  {
    var cs := kids(n);
    if cs != [] && depth > 0 {
      ScanBounded(eval, kids, cs, 0, depth - 1, maximize, alpha, beta, if maximize then alpha else beta, true, 1, lo, hi);
    }
  }

  lemma {:induction false} ScanBounded<T(!new)>(eval: T -> int, kids: T -> seq<T>, cs: seq<T>, i: nat, d: nat, maximize: bool,
                                          alpha: int, beta: int, value: int, full: bool, nodes: nat, lo: int, hi: int)
    requires i <= |cs|
    requires Bounded(eval, lo, hi)
    requires lo <= alpha <= hi && lo <= beta <= hi && lo <= value <= hi
    ensures lo <= Scan(eval, kids, cs, i, d, maximize, alpha, beta, value, full, nodes).value <= hi
    decreases d + 1, 0, |cs| - i
  {
    if i < |cs| {
      var c := Search(eval, kids, cs[i], d, !maximize, alpha, beta);
      SearchBounded(eval, kids, cs[i], d, !maximize, alpha, beta, lo, hi);
      var v := if maximize then Max(value, c.value) else Min(value, c.value);
      var a := if maximize then Max(alpha, v) else alpha;
      var b := if maximize then beta else Min(beta, v);
      if a < b {
        ScanBounded(eval, kids, cs, i + 1, d, maximize, a, b, v, full && c.full, nodes + c.nodes, lo, hi);
      }
    }
  }

  /** With every evaluation in [lo, hi], so is the minimax value. */
  lemma {:induction false} ValueBounded<T(!new)>(eval: T -> int, kids: T -> seq<T>, n: T, depth: nat, maximize: bool, lo: int, hi: int)
    requires Bounded(eval, lo, hi)
    ensures lo <= Value(eval, kids, n, depth, maximize) <= hi
    decreases depth, 1, 0
  {
    var cs := kids(n);
    if cs != [] && depth > 0 {
      ExtremeBounded(eval, kids, cs, |cs|, depth - 1, maximize, lo, hi);
    }
  }

  lemma {:induction false} ExtremeBounded<T(!new)>(eval: T -> int, kids: T -> seq<T>, cs: seq<T>, k: nat, d: nat, maximize: bool, lo: int, hi: int)
    requires 1 <= k <= |cs|
    requires Bounded(eval, lo, hi)
    ensures lo <= Extreme(eval, kids, cs, k, d, maximize) <= hi
    decreases d + 1, 0, k
  {
    ValueBounded(eval, kids, cs[k - 1], d, !maximize, lo, hi);
    if k > 1 {
      ExtremeBounded(eval, kids, cs, k - 1, d, maximize, lo, hi);
    }
  }

  /** When the window encloses every evaluation, alpha-beta returns exactly the minimax value. */
  lemma ExhaustiveWindow<T(!new)>(eval: T -> int, kids: T -> seq<T>, n: T, depth: nat, maximize: bool, alpha: int, beta: int)
    requires alpha < beta
    requires Bounded(eval, alpha, beta)
    ensures Search(eval, kids, n, depth, maximize, alpha, beta).value == Value(eval, kids, n, depth, maximize)
  {
    SearchAgrees(eval, kids, n, depth, maximize, alpha, beta);
    SearchBounded(eval, kids, n, depth, maximize, alpha, beta, alpha, beta);
    ValueBounded(eval, kids, n, depth, maximize, alpha, beta);
  }

  /** Some node within `depth` levels of `n` has children but lies at the depth limit. */
  predicate Truncated<T>(kids: T -> seq<T>, n: T, depth: nat)
    decreases depth
  {
    kids(n) != [] && (depth == 0 || exists k | 0 <= k < |kids(n)| :: Truncated(kids, kids(n)[k], depth - 1))
  }

  /** The search is reported as cut short only when the tree really reaches the depth limit
      on a node with children. */
  lemma {:induction false} CutShortOnlyWhenTruncated<T>(eval: T -> int, kids: T -> seq<T>, n: T, depth: nat, maximize: bool, alpha: int, beta: int)
    requires !Truncated(kids, n, depth)
    ensures Search(eval, kids, n, depth, maximize, alpha, beta).full
    decreases depth, 1, 0
  {
    var cs := kids(n);
    if cs != [] && depth > 0 {
      ScanFull(eval, kids, n, cs, 0, depth - 1, maximize, alpha, beta, if maximize then alpha else beta, 1);
    }
  }

  lemma {:induction false} ScanFull<T>(eval: T -> int, kids: T -> seq<T>, n: T, cs: seq<T>, i: nat, d: nat, maximize: bool,
                                       alpha: int, beta: int, value: int, nodes: nat)
    requires cs == kids(n) && i <= |cs|
    requires !Truncated(kids, n, d + 1)
    ensures Scan(eval, kids, cs, i, d, maximize, alpha, beta, value, true, nodes).full
    decreases d + 1, 0, |cs| - i
  {
    if i < |cs| {
      assert !Truncated(kids, cs[i], d);
      CutShortOnlyWhenTruncated(eval, kids, cs[i], d, !maximize, alpha, beta);
      var c := Search(eval, kids, cs[i], d, !maximize, alpha, beta);
      var v := if maximize then Max(value, c.value) else Min(value, c.value);
      var a := if maximize then Max(alpha, v) else alpha;
      var b := if maximize then beta else Min(beta, v);
      if a < b {
        ScanFull(eval, kids, n, cs, i + 1, d, maximize, a, b, v, nodes + c.nodes);
      }
    }
  }
}
