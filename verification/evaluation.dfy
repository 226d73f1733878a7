/** Static scores of the search (chess_game/ai_opponent.py, `evaluate_board`
    and `evaluate_terminal`): material plus a bonus for the four centre
    squares, and the fixed scores of checkmate and stalemate. */
module Evaluation {
  import opened Common
  import opened Notation
  import opened Pieces
  import opened Chessboard
  import opened Attacks
  import opened Legal

  /** The centre bonus per piece, in centipawns. */
  const CenterBonus: int := 15

  /** The score of being checkmated; the mating side scores its negation. */
  const MateScore: int := 100000

  /** No board evaluates beyond this: 64 squares of at most a king plus the bonus. */
  const EvalBound: int := 64 * (20000 + 15)

  /** The centre squares (3, 3), (3, 4), (4, 3) and (4, 4), by row-major index. */
  predicate IsCenter(j: int) {
    j == 27 || j == 28 || j == 35 || j == 36
  }

  /** The centre bonus a square earns for `color`: plus for its own piece,
      minus for the other side's, nothing off the centre or when empty. */
  function CenterValue(sq: Square, j: int, color: Color): int {
    if sq.None? || !IsCenter(j) then 0
    else if sq.value.color == color then CenterBonus
    else -CenterBonus
  }

  function EvalFrom(g: Grid, color: Color, i: nat): int
    requires i <= 64
    decreases 64 - i
  {
    if i == 64 then 0
    else SquareValue(At(g, i), color) + CenterValue(At(g, i), i, color) + EvalFrom(g, color, i + 1)
  }

  /** `evaluate_board`: the material balance plus the centre control. */
  function EvaluateBoard(b: Board, color: Color): (v: int)
    ensures v == MaterialBalance(b, color) + CenterFrom(b.grid, color, 0)
  {
    EvalSplits(b.grid, color, 0);
    EvalFrom(b.grid, color, 0)
  }

  /** The centre bonus summed from index `i` on. */
  function CenterFrom(g: Grid, color: Color, i: nat): int
    requires i <= 64
    decreases 64 - i
  {
    if i == 64 then 0 else CenterValue(At(g, i), i, color) + CenterFrom(g, color, i + 1)
  }

  /** How many centre squares lie at index `i` or after. */
  function CentersFrom(i: nat): nat
    requires i <= 64
  {
    if i <= 27 then 4 else if i <= 28 then 3 else if i <= 35 then 2 else if i <= 36 then 1 else 0
  }

  lemma {:induction false} EvalSplits(g: Grid, color: Color, i: nat)
    requires i <= 64
    ensures EvalFrom(g, color, i) == MaterialFrom(g, color, i) + CenterFrom(g, color, i)
    ensures -CenterBonus * CentersFrom(i) <= CenterFrom(g, color, i) <= CenterBonus * CentersFrom(i)
    decreases 64 - i
  {
    if i < 64 {
      EvalSplits(g, color, i + 1);
    }
  }

  /** The evaluation is the material balance plus at most 15 per centre square
      in either direction. */
  lemma EvaluateNearMaterial(b: Board, color: Color)
    ensures MaterialBalance(b, color) - 4 * CenterBonus <= EvaluateBoard(b, color)
    ensures EvaluateBoard(b, color) <= MaterialBalance(b, color) + 4 * CenterBonus
  {
    EvalSplits(b.grid, color, 0);
  }

  lemma {:induction false} EvalFromAntisymmetric(g: Grid, color: Color, i: nat)
    requires i <= 64
    ensures EvalFrom(g, color, i) == -EvalFrom(g, Opposite(color), i)
    decreases 64 - i
  {
    if i < 64 {
      EvalFromAntisymmetric(g, color, i + 1);
    }
  }

  /** What is good for one side is equally bad for the other. */
  lemma EvaluateAntisymmetric(b: Board, color: Color)
    ensures EvaluateBoard(b, color) == -EvaluateBoard(b, Opposite(color))
  {
    EvalFromAntisymmetric(b.grid, color, 0);
  }

  lemma {:induction false} EvalFromBounded(g: Grid, color: Color, i: nat)
    requires i <= 64
    ensures -(20000 + 15) * (64 - i) <= EvalFrom(g, color, i) <= (20000 + 15) * (64 - i)
    decreases 64 - i
  {
    if i < 64 {
      EvalFromBounded(g, color, i + 1);
    }
  }

  /** Every evaluation lies within the bound. */
  lemma EvaluateBounded(b: Board, color: Color)
    ensures -EvalBound <= EvaluateBoard(b, color) <= EvalBound
  {
    EvalFromBounded(b.grid, color, 0);
  }

  /** `evaluate_terminal`: nothing while `toMove` has a legal move; otherwise
      the mate score against the root side when it is the one mated, for it
      when the other side is, and 0 for stalemate. */
  function EvaluateTerminal(b: Board, toMove: Color, root: Color): (r: Option<int>)
    ensures r.None? <==> HasAnyLegalMoves(b, toMove)
    ensures r.Some? && IsInCheck(b, toMove) ==> r.value == (if toMove == root then -MateScore else MateScore)
    ensures r.Some? && !IsInCheck(b, toMove) ==> r.value == 0
  {
    var moves := LegalMoves(b, toMove);
    if |moves| > 0 then None
    else if IsInCheck(b, toMove) then Some(if toMove == root then -MateScore else MateScore)
    else Some(0)
  }

  /** Terminal scores lie within the evaluation bound and are zero-sum between
      the two root sides. */
  lemma TerminalScores(b: Board, toMove: Color, root: Color)
    ensures EvaluateTerminal(b, toMove, root).Some? ==>
      -EvalBound <= EvaluateTerminal(b, toMove, root).value <= EvalBound
      && EvaluateTerminal(b, toMove, Opposite(root)).value == -EvaluateTerminal(b, toMove, root).value
  {
  }
}
