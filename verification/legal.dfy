/** Legal moves and material (chess_game/game_logic.py,
    `generate_legal_moves`, `has_any_legal_moves`, `material_balance`): a
    pseudo-legal move is legal when the mover's king is not in check once it
    has been played. */
module Legal {
  import opened Common
  import opened Notation
  import opened Pieces
  import opened Chessboard
  import opened Attacks
  import opened MoveGen
  import opened Apply
  import opened AttackMap

  /** Playing `m` does not leave `color` in check: afterwards no
      pseudo-legal reply of the other side can land on `color`'s king, and a
      side without a king is always safe. */
  function Safe(b: Board, color: Color, m: Move): (r: bool)
    requires OnBoard(m)
    ensures var after := MakeMove(b, m).board;
      && (LocateKing(after, color).None? ==> r)
      && (LocateKing(after, color).Some? ==>
            (r <==> !Capturable(after, LocateKing(after, color).value.0, LocateKing(after, color).value.1, Opposite(color))))
  {
    var after := MakeMove(b, m).board;
    CheckReading(after, color);
    !IsInCheck(after, color)
  }

  /** `r` is `ms` with some entries left out and the rest in their order. */
  predicate Subsequence<T(==)>(r: seq<T>, ms: seq<T>)
    decreases |ms|
  {
    if |r| == 0 then true
    else if |ms| == 0 then false
    else (r[0] == ms[0] && Subsequence(r[1..], ms[1..])) || Subsequence(r, ms[1..])
  }

  /** The loop of `generate_legal_moves`: each move in turn, kept when it is safe. */
  function KeepSafe(b: Board, color: Color, ms: seq<Move>): (r: seq<Move>)
    requires forall m <- ms :: OnBoard(m)
    ensures forall m :: m in r <==> m in ms && Safe(b, color, m)
    ensures Subsequence(r, ms)
  {
    if |ms| == 0 then []
    else
      var rest := KeepSafe(b, color, ms[1..]);
      if Safe(b, color, ms[0]) then [ms[0]] + rest else rest
  }

  /** Generated moves lie on the board. */
  lemma GeneratedOnBoard(b: Board, color: Color)
    ensures forall m <- PseudoLegalMoves(b, color) :: OnBoard(m)
  {
    forall m <- PseudoLegalMoves(b, color)
      ensures OnBoard(m)
    {
      assert Playable(b, m, color);
    }
  }

  /** `generate_legal_moves` for an explicit colour: the pseudo-legal moves,
      in generation order, that do not leave the mover in check. */
  function LegalMoves(b: Board, color: Color): (r: seq<Move>)
    ensures forall m <- r :: OnBoard(m)
    ensures forall m :: m in r <==> m in PseudoLegalMoves(b, color) && Safe(b, color, m)
    ensures Subsequence(r, PseudoLegalMoves(b, color))
  {
    GeneratedOnBoard(b, color);
    KeepSafe(b, color, PseudoLegalMoves(b, color))
  }

  /** `generate_legal_moves` without a colour: the side to move. */
  function CurrentLegalMoves(b: Board): (r: seq<Move>)
    ensures forall m :: m in r <==> m in PseudoLegalMoves(b, b.current) && Safe(b, b.current, m)
  {
    LegalMoves(b, b.current)
  }

  /** `has_any_legal_moves`. */
  function HasAnyLegalMoves(b: Board, color: Color): (r: bool)
    ensures r <==> exists m <- PseudoLegalMoves(b, color) :: OnBoard(m) && Safe(b, color, m)
    ensures r <==> |LegalMoves(b, color)| > 0
  {
    var ms := LegalMoves(b, color);
    if |ms| > 0 then assert ms[0] in ms; true else false
  }

  // ---------------------------------------------------------------------------
  // material_balance

  /** The square at row-major index `j`. */
  function At(g: Grid, j: int): Square
    requires 0 <= j < 64
  {
    g[j / 8][j % 8]
  }

  /** A square's worth for `color`: its piece's value, counted against
      `color` when the piece is the other side's. */
  function SquareValue(sq: Square, color: Color): int {
    if sq.None? then 0
    else if sq.value.color == color then PieceValue(sq.value.kind)
    else -PieceValue(sq.value.kind)
  }

  /** The sum of the square values from index `i` on. */
  function MaterialFrom(g: Grid, color: Color, i: nat): int
    requires i <= 64
    decreases 64 - i
  {
    if i == 64 then 0 else SquareValue(At(g, i), color) + MaterialFrom(g, color, i + 1)
  }

  /** The value of `color`'s own pieces from index `i` on. */
  function SideMaterial(g: Grid, color: Color, i: nat): int
    requires i <= 64
    decreases 64 - i
  {
    if i == 64 then 0
    else
      var own := if At(g, i).Some? && At(g, i).value.color == color then PieceValue(At(g, i).value.kind) else 0;
      own + SideMaterial(g, color, i + 1)
  }

  /** The signed sum is one side's total less the other's. */
  lemma {:induction false} MaterialFromSides(g: Grid, color: Color, i: nat)
    requires i <= 64
    ensures MaterialFrom(g, color, i) == SideMaterial(g, color, i) - SideMaterial(g, Opposite(color), i)
    decreases 64 - i
  {
    if i < 64 {
      MaterialFromSides(g, color, i + 1);
    }
  }

  /** `material_balance`: the value of `color`'s pieces less the value of
      the other side's. */
  function MaterialBalance(b: Board, color: Color): (v: int)
    ensures v == SideMaterial(b.grid, color, 0) - SideMaterial(b.grid, Opposite(color), 0)
  {
    MaterialFromSides(b.grid, color, 0);
    MaterialFrom(b.grid, color, 0)
  }

  /** What one side gains the other loses. */
  lemma {:induction false} MaterialFromAntisymmetric(g: Grid, color: Color, i: nat)
    requires i <= 64
    ensures MaterialFrom(g, color, i) == -MaterialFrom(g, Opposite(color), i)
    decreases 64 - i
  {
    if i < 64 {
      MaterialFromAntisymmetric(g, color, i + 1);
    }
  }

  lemma MaterialAntisymmetric(b: Board)
    ensures MaterialBalance(b, White) == -MaterialBalance(b, Black)
  {
    MaterialFromAntisymmetric(b.grid, White, 0);
  }

  /** Two grids that agree from index `i` on have the same sum there. */
  lemma {:induction false} MaterialFromSame(g1: Grid, g2: Grid, color: Color, i: nat)
    requires i <= 64
    requires forall j :: i <= j < 64 ==> At(g1, j) == At(g2, j)
    ensures MaterialFrom(g1, color, i) == MaterialFrom(g2, color, i)
    decreases 64 - i
  {
    if i < 64 {
      MaterialFromSame(g1, g2, color, i + 1);
    }
  }

  /** Changing one square changes the sum by the difference of its values. */
  lemma {:induction false} MaterialFromChange(g1: Grid, g2: Grid, color: Color, i: nat, k: int)
    requires i <= k < 64
    requires forall j :: i <= j < 64 && j != k ==> At(g1, j) == At(g2, j)
    ensures MaterialFrom(g2, color, i) ==
      MaterialFrom(g1, color, i) - SquareValue(At(g1, k), color) + SquareValue(At(g2, k), color)
    decreases 64 - i
  {
    if i < k {
      MaterialFromChange(g1, g2, color, i + 1, k);
    } else {
      MaterialFromSame(g1, g2, color, i + 1);
    }
  }

  /** Setting one square changes the balance by the difference of its values. */
  lemma MaterialAfterSet(b: Board, row: int, col: int, p: Square, color: Color)
    requires InBounds(row, col)
    ensures MaterialBalance(Set(b, row, col, p), color) ==
      MaterialBalance(b, color) - SquareValue(Get(b, row, col), color) + SquareValue(p, color)
  {
    var b2 := Set(b, row, col, p);
    SquareIndex(row, col);
    forall j | 0 <= j < 64 && j != row * 8 + col
      ensures At(b.grid, j) == At(b2.grid, j)
    {
      assert Get(b2, j / 8, j % 8) == Get(b, j / 8, j % 8);
    }
    MaterialFromChange(b.grid, b2.grid, color, 0, row * 8 + col);
  }

  /** A plain move (not en passant, not castling) changes the mover's balance
      by the value it takes plus what a promotion adds. */
  lemma MaterialAfterMove(b: Board, m: Move)
    requires OnBoard(m) && (m.fromRow, m.fromCol) != (m.toRow, m.toCol)
    requires Get(b, m.fromRow, m.fromCol).Some?
    requires var piece := Get(b, m.fromRow, m.fromCol).value;
      !m.isEnPassant && !(m.isCastling && piece.kind == King)
      && (Get(b, m.toRow, m.toCol).None? || Get(b, m.toRow, m.toCol).value.color != piece.color)
    ensures var piece := Get(b, m.fromRow, m.fromCol).value;
      var r := MakeMove(b, m);
      MaterialBalance(r.board, piece.color) == MaterialBalance(b, piece.color)
        + (if r.captured.Some? then PieceValue(r.captured.value.kind) else 0)
        + PieceValue(Arriving(piece, m).kind) - PieceValue(piece.kind)
  {
    var piece := Get(b, m.fromRow, m.fromCol).value;
    var b1 := Set(b, m.fromRow, m.fromCol, None);
    var b2 := Set(b1, m.toRow, m.toCol, Some(Arriving(piece, m)));
    MaterialAfterSet(b, m.fromRow, m.fromCol, None, piece.color);
    MaterialAfterSet(b1, m.toRow, m.toCol, Some(Arriving(piece, m)), piece.color);
    assert MakeMove(b, m).board.grid == b2.grid;
  }
}
