/** The computer opponent (chess_game/ai_opponent.py, `choose_ai_move`):
    the chess rules plugged into the search, and the choice of a move from
    the root scores. */
module Opponent {
  import opened Common
  import opened Notation
  import opened Chessboard
  import opened MoveGen
  import opened Apply
  import opened Legal
  import opened Evaluation
  import opened Ordering
  import opened Search

  /** The position after `m`; the search only plays legal moves, which lie
      on the board. */
  function Play(b: Board, m: Move): (r: Board)
    ensures OnBoard(m) ==> r == MakeMove(b, m).board
  {
    if OnBoard(m) then MakeMove(b, m).board else b
  }

  /** `order_moves` on the moves it can score. */
  function Ordered(b: Board, ms: seq<Move>, toMove: Color): (r: seq<Move>)
    ensures multiset(r) == multiset(ms)
  {
    if forall m <- ms :: Scorable(b, m) then OrderMoves(b, ms, toMove) else ms
  }

  /** The rules of chess as the search sees them. */
  const Chess: Game := Game(
    (b, color) => LegalMoves(b, color),
    (b, m) => Play(b, m),
    (b, toMove, root) => EvaluateTerminal(b, toMove, root),
    (b, color) => EvaluateBoard(b, color),
    (b, ms, toMove) => Ordered(b, ms, toMove))

  /** The chess instance meets what the search's guarantees rest on. */
  lemma ChessSound()
    ensures Sound(Chess)
  {
    forall b, ms, c, m
      ensures m in Chess.order(b, ms, c) <==> m in ms
    {
      assert multiset(Chess.order(b, ms, c)) == multiset(ms);
      assert m in Chess.order(b, ms, c) <==> m in multiset(Chess.order(b, ms, c));
    }
    forall b, c, r | Chess.terminal(b, c, r).Some?
      ensures -Bound <= Chess.terminal(b, c, r).value <= Bound
    {
      TerminalScores(b, c, r);
    }
    forall b, c
      ensures -Bound <= Chess.eval(b, c) <= Bound
    {
      EvaluateBounded(b, c);
    }
  }

  /** Legal moves start on a piece of the side to move, so they can be scored. */
  lemma LegalScorable(b: Board, color: Color)
    ensures forall m <- LegalMoves(b, color) :: Scorable(b, m)
  {
    forall m <- LegalMoves(b, color)
      ensures Scorable(b, m)
    {
      assert Playable(b, m, color);
    }
  }

  /** `choose_ai_move`: nothing without a legal move; a uniform pick among
      all of them at depth 0 or below; otherwise the choice among the scored
      root moves. `pick` stands for the random generator's draw. */
  function ChooseAiMove(b: Board, color: Color, depth: int, randomness: real, pick: nat): (r: Option<Move>)
    ensures r.None? <==> |LegalMoves(b, color)| == 0
    ensures r.Some? ==> r.value in LegalMoves(b, color)
  {
    var moves := LegalMoves(b, color);
    if |moves| == 0 then None
    else if depth <= 0 then Some(moves[pick % |moves|])
    else Some(RootChoice(Chess, b, moves, depth, randomness, pick, color))
  }

  /** Without randomness (or with a single move) and at depth 1 or more the
      chosen move is a best one: its minimax value, the opponent replying,
      is the highest over all legal moves. */
  lemma ChooseAiMoveOptimal(b: Board, color: Color, depth: int, randomness: real, pick: nat)
    requires depth >= 1 && !(randomness > 0.0 && |LegalMoves(b, color)| > 1)
    ensures var r := ChooseAiMove(b, color, depth, randomness, pick);
      r.Some? ==>
        && ChildValue(Chess, b, r.value, depth, true, color) == Best(Chess, b, LegalMoves(b, color), 0, depth, true, color)
        && forall m <- LegalMoves(b, color) :: ChildValue(Chess, b, m, depth, true, color) <= ChildValue(Chess, b, r.value, depth, true, color)
  {
    var moves := LegalMoves(b, color);
    if |moves| > 0 {
      ChessSound();
      RootChoiceOptimal(Chess, b, moves, depth, randomness, pick, color);
    }
  }

  /** The difficulty levels of `AI_SETTINGS`. */
  datatype Level = Easy | Medium | Hard

  /** Search depth and randomness per level. */
  function Settings(level: Level): (r: (int, real))
    ensures r.0 >= 2 && 0.0 <= r.1 < 1.0
    ensures r.1 == 0.0 <==> level == Hard
  {
    match level
    case Easy => (2, 0.3)
    case Medium => (3, 0.1)
    case Hard => (4, 0.0)
  }

  /** At the hardest level the choice never depends on chance and is a best move. */
  lemma HardLevelOptimal(b: Board, color: Color, pick: nat, pick2: nat)
    ensures var (depth, randomness) := Settings(Hard);
      var r := ChooseAiMove(b, color, depth, randomness, pick);
      && r == ChooseAiMove(b, color, depth, randomness, pick2)
      && (r.Some? ==> forall m <- LegalMoves(b, color) ::
            ChildValue(Chess, b, m, depth, true, color) <= ChildValue(Chess, b, r.value, depth, true, color))
  {
    assert Settings(Hard) == (4, 0.0);
    var moves := LegalMoves(b, color);
    if |moves| > 0 {
      assert ChooseAiMove(b, color, 4, 0.0, pick) == Some(RootChoice(Chess, b, moves, 4, 0.0, pick, color));
      assert ChooseAiMove(b, color, 4, 0.0, pick2) == Some(RootChoice(Chess, b, moves, 4, 0.0, pick2, color));
      RootChoiceWithoutChance(Chess, b, moves, 4, 0.0, pick, pick2, color);
    }
    ChooseAiMoveOptimal(b, color, 4, 0.0, pick);
  }
}
