/** The game-tree search (chess_game/ai_opponent.py, `minimax` and the
    scoring loop of `choose_ai_move`): depth-limited minimax with alpha-beta
    pruning over ordered moves, scored from the root side's point of view.
    The search is stated over the few operations it uses from the rules — the
    legal moves, playing a move, the terminal and static scores, the move
    ordering — and related to a reference minimax without pruning or
    ordering: it returns the exact minimax value whenever that value falls
    strictly inside the window, and a bound on it otherwise. */
module Search {
  import opened Common
  import opened Notation
  import opened Chessboard
  import Evaluation
  import opened Ordering

  /** Stands for the floating-point infinities the search starts its
      window and its running values with; no score reaches it. */
  const Infinity: int := 1_000_000_000

  /** No static score exceeds this in size. */
  const Bound: int := Evaluation.EvalBound

  function Max(a: int, b: int): int { if a >= b then a else b }
  function Min(a: int, b: int): int { if a <= b then a else b }

  /** What the search uses from the rules. */
  datatype Game = Game(
    moves: (Board, Color) -> seq<Move>,
    play: (Board, Move) -> Board,
    terminal: (Board, Color, Color) -> Option<int>,
    eval: (Board, Color) -> int,
    order: (Board, seq<Move>, Color) -> seq<Move>)

  /** The ordering only rearranges the moves, and every static score is
      within the bound. */
  ghost predicate Sound(g: Game) {
    && (forall b, ms, c, m :: m in g.order(b, ms, c) <==> m in ms)
    && (forall b, c, r :: g.terminal(b, c, r).Some? ==> -Bound <= g.terminal(b, c, r).value <= Bound)
    && (forall b, c :: -Bound <= g.eval(b, c) <= Bound)
  }

  // ---------------------------------------------------------------------------
  // minimax as the program writes it

  /** `minimax`: at depth 0 or in a finished position the static score, else
      the best score over the ordered moves, cut off once the window closes. */
  function Search(g: Game, b: Board, depth: nat, alpha: int, beta: int, maximizing: bool, toMove: Color, root: Color): int
    decreases depth, 1, 0
  {
    var terminal := g.terminal(b, toMove, root);
    if depth == 0 || terminal.Some? then
      if terminal.Some? then terminal.value else g.eval(b, root)
    else
      var moves := g.moves(b, toMove);
      if |moves| == 0 then g.eval(b, root)
      else
        var ordered := g.order(b, moves, toMove);
        if maximizing then MaxLoop(g, b, ordered, 0, depth, alpha, beta, -Infinity, root)
        else MinLoop(g, b, ordered, 0, depth, alpha, beta, Infinity, root)
  }

  /** The maximising loop from move `i` on, with the running `value` and the
      raised `alpha`. */
  function MaxLoop(g: Game, b: Board, ms: seq<Move>, i: nat, depth: nat, alpha: int, beta: int, value: int, root: Color): int
    requires 1 <= depth && i <= |ms|
    decreases depth, 0, |ms| - i
  {
    if i == |ms| then value
    else
      var child := g.play(b, ms[i]);
      var score := Search(g, child, depth - 1, alpha, beta, false, child.current, root);
      var value' := Max(value, score);
      var alpha' := Max(alpha, value');
      if alpha' >= beta then value' else MaxLoop(g, b, ms, i + 1, depth, alpha', beta, value', root)
  }

  /** The minimising loop from move `i` on, with the running `value` and the
      lowered `beta`. */
  function MinLoop(g: Game, b: Board, ms: seq<Move>, i: nat, depth: nat, alpha: int, beta: int, value: int, root: Color): int
    requires 1 <= depth && i <= |ms|
    decreases depth, 0, |ms| - i
  {
    if i == |ms| then value
    else
      var child := g.play(b, ms[i]);
      var score := Search(g, child, depth - 1, alpha, beta, true, child.current, root);
      var value' := Min(value, score);
      var beta' := Min(beta, value');
      if beta' <= alpha then value' else MinLoop(g, b, ms, i + 1, depth, alpha, beta', value', root)
  }

  // ---------------------------------------------------------------------------
  // Reference minimax: every move, in the order given, no cut-offs

  function MinimaxValue(g: Game, b: Board, depth: nat, maximizing: bool, toMove: Color, root: Color): int
    decreases depth, 2, 0
  {
    var terminal := g.terminal(b, toMove, root);
    if depth == 0 || terminal.Some? then
      if terminal.Some? then terminal.value else g.eval(b, root)
    else
      var moves := g.moves(b, toMove);
      if |moves| == 0 then g.eval(b, root) else Best(g, b, moves, 0, depth, maximizing, root)
  }

  /** The value of the position `m` leads to, the other side choosing next. */
  function ChildValue(g: Game, b: Board, m: Move, depth: nat, maximizing: bool, root: Color): int
    requires 1 <= depth
    decreases depth, 0, 0
  {
    var child := g.play(b, m);
    MinimaxValue(g, child, depth - 1, !maximizing, child.current, root)
  }

  /** The highest (or lowest) child value over `ms[i..]`. */
  function Best(g: Game, b: Board, ms: seq<Move>, i: nat, depth: nat, maximizing: bool, root: Color): int
    requires 1 <= depth && i <= |ms|
    decreases depth, 1, |ms| - i
  {
    if i == |ms| then (if maximizing then -Infinity else Infinity)
    else
      var here := ChildValue(g, b, ms[i], depth, maximizing, root);
      var rest := Best(g, b, ms, i + 1, depth, maximizing, root);
      if maximizing then Max(here, rest) else Min(here, rest)
  }

  /** The best value bounds every child value... */
  lemma {:induction false} BestBounds(g: Game, b: Board, ms: seq<Move>, i: nat, depth: nat, maximizing: bool, root: Color)
    requires 1 <= depth && i <= |ms|
    ensures forall j :: i <= j < |ms| ==>
      if maximizing then ChildValue(g, b, ms[j], depth, maximizing, root) <= Best(g, b, ms, i, depth, maximizing, root)
      else ChildValue(g, b, ms[j], depth, maximizing, root) >= Best(g, b, ms, i, depth, maximizing, root)
    decreases |ms| - i
  {
    if i < |ms| {
      BestBounds(g, b, ms, i + 1, depth, maximizing, root);
    }
  }

  /** ...and, over a non-empty list, is one of them. */
  lemma {:induction false} BestAttained(g: Game, b: Board, ms: seq<Move>, i: nat, depth: nat, maximizing: bool, root: Color)
    returns (j: nat)
    requires Sound(g) && 1 <= depth && i < |ms|
    ensures i <= j < |ms| && Best(g, b, ms, i, depth, maximizing, root) == ChildValue(g, b, ms[j], depth, maximizing, root)
    decreases |ms| - i
  {
    if i + 1 == |ms| {
      j := i;
      var child := g.play(b, ms[i]);
      MinimaxBounded(g, child, depth - 1, !maximizing, child.current, root);
    } else {
      var here := ChildValue(g, b, ms[i], depth, maximizing, root);
      var rest := Best(g, b, ms, i + 1, depth, maximizing, root);
      var k := BestAttained(g, b, ms, i + 1, depth, maximizing, root);
      j := if (maximizing && here >= rest) || (!maximizing && here <= rest) then i else k;
    }
  }

  /** The best value depends on which moves there are, not on their order. */
  lemma BestPermutation(g: Game, b: Board, xs: seq<Move>, ys: seq<Move>, depth: nat, maximizing: bool, root: Color)
    requires Sound(g) && 1 <= depth && |xs| > 0
    requires forall m :: m in xs <==> m in ys
    ensures |ys| > 0
    ensures Best(g, b, xs, 0, depth, maximizing, root) == Best(g, b, ys, 0, depth, maximizing, root)
  {
    var jx := BestAttained(g, b, xs, 0, depth, maximizing, root);
    assert xs[jx] in ys;
    var ky :| 0 <= ky < |ys| && ys[ky] == xs[jx];
    var jy := BestAttained(g, b, ys, 0, depth, maximizing, root);
    assert ys[jy] in xs;
    var kx :| 0 <= kx < |xs| && xs[kx] == ys[jy];
    BestBounds(g, b, xs, 0, depth, maximizing, root);
    BestBounds(g, b, ys, 0, depth, maximizing, root);
  }

  // ---------------------------------------------------------------------------
  // Bounds

  /** No minimax value reaches the sentinels. */
  lemma {:induction false} MinimaxBounded(g: Game, b: Board, depth: nat, maximizing: bool, toMove: Color, root: Color)
    requires Sound(g)
    ensures -Bound <= MinimaxValue(g, b, depth, maximizing, toMove, root) <= Bound
    decreases depth, 2, 0
  {
    var moves := g.moves(b, toMove);
    if depth > 0 && g.terminal(b, toMove, root).None? && |moves| > 0 {
      BestBounded(g, b, moves, 0, depth, maximizing, root);
    }
  }

  lemma {:induction false} BestBounded(g: Game, b: Board, ms: seq<Move>, i: nat, depth: nat, maximizing: bool, root: Color)
    requires Sound(g) && 1 <= depth && i < |ms|
    ensures -Bound <= Best(g, b, ms, i, depth, maximizing, root) <= Bound
    decreases depth, 1, |ms| - i
  {
    var child := g.play(b, ms[i]);
    MinimaxBounded(g, child, depth - 1, !maximizing, child.current, root);
    if i + 1 < |ms| {
      BestBounded(g, b, ms, i + 1, depth, maximizing, root);
    }
  }

  // ---------------------------------------------------------------------------
  // Alpha-beta against the reference

  /** The fail-soft guarantee: a value at or below the window bounds the
      true value from above, one at or above it from below, and one inside
      it is exact. */
  predicate FailSoft(v: int, m: int, alpha: int, beta: int) {
    && (v <= alpha ==> m <= v)
    && (v >= beta ==> m >= v)
    && (alpha < v < beta ==> v == m)
  }

  lemma {:induction false} SearchCorrect(g: Game, b: Board, depth: nat, alpha: int, beta: int, maximizing: bool, toMove: Color, root: Color)
    requires Sound(g) && -Infinity <= alpha < beta <= Infinity
    ensures FailSoft(Search(g, b, depth, alpha, beta, maximizing, toMove, root),
                     MinimaxValue(g, b, depth, maximizing, toMove, root), alpha, beta)
    decreases depth, 1, 0
  {
    var moves := g.moves(b, toMove);
    if depth > 0 && g.terminal(b, toMove, root).None? && |moves| > 0 {
      var ordered := g.order(b, moves, toMove);
      assert forall m :: m in moves <==> m in ordered;
      BestPermutation(g, b, moves, ordered, depth, maximizing, root);
      BestBounded(g, b, ordered, 0, depth, maximizing, root);
      if maximizing {
        MaxLoopCorrect(g, b, ordered, 0, depth, alpha, alpha, beta, -Infinity, -Infinity, root);
      } else {
        MinLoopCorrect(g, b, ordered, 0, depth, beta, alpha, beta, Infinity, Infinity, root);
      }
    }
  }

  /** The maximising loop, with `p` the best true value of the moves already
      searched: the running value bounds it, and equals it once it has risen
      above the window's original floor `a0`. */
  lemma {:induction false} MaxLoopCorrect(g: Game, b: Board, ms: seq<Move>, i: nat, depth: nat,
                                          a0: int, alpha: int, beta: int, value: int, p: int, root: Color)
    requires Sound(g) && 1 <= depth && i <= |ms|
    requires -Infinity <= a0 && beta <= Infinity
    requires alpha == Max(a0, value) && alpha < beta
    requires -Infinity <= p <= value && (a0 < value ==> p == value)
    ensures FailSoft(MaxLoop(g, b, ms, i, depth, alpha, beta, value, root),
                     Max(p, Best(g, b, ms, i, depth, true, root)), a0, beta)
    decreases depth, 0, |ms| - i
  {
    if i < |ms| {
      var child := g.play(b, ms[i]);
      var score := Search(g, child, depth - 1, alpha, beta, false, child.current, root);
      SearchCorrect(g, child, depth - 1, alpha, beta, false, child.current, root);
      var c := ChildValue(g, b, ms[i], depth, true, root);
      assert Best(g, b, ms, i, depth, true, root) == Max(c, Best(g, b, ms, i + 1, depth, true, root));
      var value' := Max(value, score);
      var alpha' := Max(alpha, value');
      if alpha' < beta {
        MaxLoopCorrect(g, b, ms, i + 1, depth, a0, alpha', beta, value', Max(p, c), root);
      }
    }
  }

  /** The minimising loop, mirrored: `p` is the lowest true value so far and
      `b0` the window's original ceiling. */
  lemma {:induction false} MinLoopCorrect(g: Game, b: Board, ms: seq<Move>, i: nat, depth: nat,
                                          b0: int, alpha: int, beta: int, value: int, p: int, root: Color)
    requires Sound(g) && 1 <= depth && i <= |ms|
    requires -Infinity <= alpha && b0 <= Infinity
    requires beta == Min(b0, value) && alpha < beta
    requires value <= p <= Infinity && (value < b0 ==> p == value)
    ensures FailSoft(MinLoop(g, b, ms, i, depth, alpha, beta, value, root),
                     Min(p, Best(g, b, ms, i, depth, false, root)), alpha, b0)
    decreases depth, 0, |ms| - i
  {
    if i < |ms| {
      var child := g.play(b, ms[i]);
      var score := Search(g, child, depth - 1, alpha, beta, true, child.current, root);
      SearchCorrect(g, child, depth - 1, alpha, beta, true, child.current, root);
      var c := ChildValue(g, b, ms[i], depth, false, root);
      assert Best(g, b, ms, i, depth, false, root) == Min(c, Best(g, b, ms, i + 1, depth, false, root));
      var value' := Min(value, score);
      var beta' := Min(beta, value');
      if beta' > alpha {
        MinLoopCorrect(g, b, ms, i + 1, depth, b0, alpha, beta', value', Min(p, c), root);
      }
    }
  }

  /** With the whole line as its window the search returns the exact minimax
      value: ordering and pruning change how fast, never what. */
  lemma SearchFullWindow(g: Game, b: Board, depth: nat, maximizing: bool, toMove: Color, root: Color)
    requires Sound(g)
    ensures Search(g, b, depth, -Infinity, Infinity, maximizing, toMove, root) == MinimaxValue(g, b, depth, maximizing, toMove, root)
  {
    SearchCorrect(g, b, depth, -Infinity, Infinity, maximizing, toMove, root);
    MinimaxBounded(g, b, depth, maximizing, toMove, root);
  }

  // ---------------------------------------------------------------------------
  // The root of choose_ai_move

  /** The root loop of `choose_ai_move`: each move scored by a minimising
      search of its position under the window from the best score so far to
      infinity, paired with the move. */
  function RootScores(g: Game, b: Board, ms: seq<Move>, i: nat, depth: nat, alpha: int, root: Color): (r: seq<Scored>)
    requires 1 <= depth && i <= |ms|
    ensures |r| == |ms| - i
    ensures forall j :: 0 <= j < |r| ==> r[j].move == ms[i + j]
    decreases |ms| - i
  {
    if i == |ms| then []
    else
      var child := g.play(b, ms[i]);
      var score := Search(g, child, depth - 1, alpha, Infinity, false, child.current, root);
      [Scored(score, ms[i])] + RootScores(g, b, ms, i + 1, depth, Max(alpha, score), root)
  }

  /** Entry `j` outscores every entry before it. */
  predicate Leads(r: seq<Scored>, j: nat)
    requires j < |r|
  {
    forall l :: 0 <= l < j ==> r[l].score < r[j].score
  }

  /** Every root score bounds its move's true value from above, and is exact
      when it beats the floor `alpha` and every earlier score. */
  ghost predicate ScoresSound(g: Game, b: Board, r: seq<Scored>, depth: nat, alpha: int, root: Color)
    requires 1 <= depth
  {
    forall j :: 0 <= j < |r| ==>
      && ChildValue(g, b, r[j].move, depth, true, root) <= r[j].score
      && (alpha < r[j].score && Leads(r, j) ==> ChildValue(g, b, r[j].move, depth, true, root) == r[j].score)
  }

  lemma {:induction false} RootScoresSound(g: Game, b: Board, ms: seq<Move>, i: nat, depth: nat, alpha: int, root: Color)
    requires Sound(g) && 1 <= depth && i <= |ms| && -Infinity <= alpha < Infinity
    ensures ScoresSound(g, b, RootScores(g, b, ms, i, depth, alpha, root), depth, alpha, root)
    decreases |ms| - i
  {
    if i < |ms| {
      var r := RootScores(g, b, ms, i, depth, alpha, root);
      var child := g.play(b, ms[i]);
      var score := Search(g, child, depth - 1, alpha, Infinity, false, child.current, root);
      SearchCorrect(g, child, depth - 1, alpha, Infinity, false, child.current, root);
      MinimaxBounded(g, child, depth - 1, false, child.current, root);
      var alpha' := Max(alpha, score);
      var rest := RootScores(g, b, ms, i + 1, depth, alpha', root);
      RootScoresSound(g, b, ms, i + 1, depth, alpha', root);
      assert r == [Scored(score, ms[i])] + rest;
      var c := ChildValue(g, b, ms[i], depth, true, root);
      assert c == MinimaxValue(g, child, depth - 1, false, child.current, root);
      forall j | 0 <= j < |r|
        ensures ChildValue(g, b, r[j].move, depth, true, root) <= r[j].score
        ensures alpha < r[j].score && Leads(r, j) ==> ChildValue(g, b, r[j].move, depth, true, root) == r[j].score
      {
        if j > 0 {
          assert r[j] == rest[j - 1];
          if alpha < r[j].score && Leads(r, j) {
            assert r[0].score < r[j].score;
            forall l | 0 <= l < j - 1
              ensures rest[l].score < rest[j - 1].score
            {
              assert rest[l] == r[l + 1];
            }
          }
        }
      }
    }
  }

  /** How many of the best root moves the random choice draws from:
      `max(1, int(n * randomness))`, the slice stopping at the list's end. */
  function TopCount(n: nat, randomness: real): (k: nat)
    requires n > 0 && randomness > 0.0
    ensures 1 <= k <= n
    ensures k == n || (k == 1 && (n as real * randomness).Floor <= 1) || k == (n as real * randomness).Floor
  {
    var scaled := (n as real * randomness).Floor;
    if scaled <= 1 then 1 else if scaled >= n then n else scaled
  }

  /** Moves carried in sorted root scores come from the scored moves. */
  lemma SortedMovesFrom(xs: seq<Scored>, ms: seq<Move>, k: nat)
    requires |xs| == |ms| && forall j :: 0 <= j < |xs| ==> xs[j].move == ms[j]
    requires k < |xs|
    ensures |SortDesc(xs)| == |xs| && SortDesc(xs)[k].move in ms
  {
    var x := SortDesc(xs)[k];
    assert x in multiset(SortDesc(xs));
    var j :| 0 <= j < |xs| && xs[j] == x;
  }

  /** The choice among scored root moves in `choose_ai_move`: the root
      scores sorted highest first, then either the first or, with randomness
      and more than one move, a pick among the top `TopCount`. `pick` stands
      for the random generator's draw. */
  function RootChoice(g: Game, b: Board, ms: seq<Move>, depth: nat, randomness: real, pick: nat, root: Color): (m: Move)
    requires 1 <= depth && |ms| > 0
    ensures m in ms
  {
    var xs := RootScores(g, b, ms, 0, depth, -Infinity, root);
    var scored := SortDesc(xs);
    if randomness > 0.0 && |scored| > 1 then
      var top := MovesOf(scored[..TopCount(|scored|, randomness)]);
      var k := pick % |top|;
      SortedMovesFrom(xs, ms, k);
      top[k]
    else
      SortedMovesFrom(xs, ms, 0);
      scored[0].move
  }

  /** Without randomness, or with a single move, the draw plays no part. */
  lemma RootChoiceWithoutChance(g: Game, b: Board, ms: seq<Move>, depth: nat, randomness: real, pick: nat, pick2: nat, root: Color)
    requires 1 <= depth && |ms| > 0 && !(randomness > 0.0 && |ms| > 1)
    ensures RootChoice(g, b, ms, depth, randomness, pick, root) == RootChoice(g, b, ms, depth, randomness, pick2, root)
  {
    var xs := RootScores(g, b, ms, 0, depth, -Infinity, root);
    assert |SortDesc(xs)| == |ms|;
  }

  lemma ChildBounded(g: Game, b: Board, m: Move, depth: nat, maximizing: bool, root: Color)
    requires Sound(g) && 1 <= depth
    ensures -Bound <= ChildValue(g, b, m, depth, maximizing, root) <= Bound
  {
    var child := g.play(b, m);
    MinimaxBounded(g, child, depth - 1, !maximizing, child.current, root);
  }

  lemma ExactAt(g: Game, b: Board, xs: seq<Scored>, depth: nat, root: Color, k: nat)
    requires Sound(g) && 1 <= depth && k < |xs|
    requires ScoresSound(g, b, xs, depth, -Infinity, root) && Leads(xs, k)
    ensures ChildValue(g, b, xs[k].move, depth, true, root) == xs[k].score
  {
    ChildBounded(g, b, xs[k].move, depth, true, root);
  }

  lemma RootHeadExact(g: Game, b: Board, ms: seq<Move>, depth: nat, root: Color) returns (k: nat)
    requires Sound(g) && 1 <= depth && |ms| > 0
    ensures var xs := RootScores(g, b, ms, 0, depth, -Infinity, root);
      && k < |ms| && SortDesc(xs)[0].move == ms[k]
      && ChildValue(g, b, ms[k], depth, true, root) == xs[k].score
      && forall j :: 0 <= j < |ms| ==> xs[j].score <= xs[k].score
  {
    var xs := RootScores(g, b, ms, 0, depth, -Infinity, root);
    k := SortHead(xs);
    RootScoresSound(g, b, ms, 0, depth, -Infinity, root);
    ExactAt(g, b, xs, depth, root, k);
  }

  lemma HeadDominates(g: Game, b: Board, ms: seq<Move>, depth: nat, root: Color, k: nat)
    requires 1 <= depth && k < |ms|
    requires var xs := RootScores(g, b, ms, 0, depth, -Infinity, root);
      && ScoresSound(g, b, xs, depth, -Infinity, root)
      && ChildValue(g, b, ms[k], depth, true, root) == xs[k].score
      && forall j :: 0 <= j < |ms| ==> xs[j].score <= xs[k].score
    ensures forall m <- ms :: ChildValue(g, b, m, depth, true, root) <= ChildValue(g, b, ms[k], depth, true, root)
  {
    var xs := RootScores(g, b, ms, 0, depth, -Infinity, root);
    forall m <- ms
      ensures ChildValue(g, b, m, depth, true, root) <= xs[k].score
    {
      var j :| 0 <= j < |ms| && ms[j] == m;
      assert xs[j].move == m;
    }
  }

  /** Without randomness, or with a single move, the choice is a best move:
      its true value is the highest over all the moves. */
  lemma RootChoiceOptimal(g: Game, b: Board, ms: seq<Move>, depth: nat, randomness: real, pick: nat, root: Color)
    requires Sound(g) && 1 <= depth && |ms| > 0
    requires !(randomness > 0.0 && |ms| > 1)
    ensures var m := RootChoice(g, b, ms, depth, randomness, pick, root);
      && ChildValue(g, b, m, depth, true, root) == Best(g, b, ms, 0, depth, true, root)
      && forall m' <- ms :: ChildValue(g, b, m', depth, true, root) <= ChildValue(g, b, m, depth, true, root)
  {
    var k := RootHeadExact(g, b, ms, depth, root);
    RootScoresSound(g, b, ms, 0, depth, -Infinity, root);
    HeadDominates(g, b, ms, depth, root, k);
    var j0 := BestAttained(g, b, ms, 0, depth, true, root);
    BestBounds(g, b, ms, 0, depth, true, root);
  }
}
