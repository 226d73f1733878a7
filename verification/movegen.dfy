/** Pseudo-legal move generation (chess_game/game_logic.py, the
    `generate_*_moves` functions): moves that follow each piece's movement
    rules without asking whether the mover's king is left in check. */
module MoveGen {
  import opened Common
  import opened Notation
  import opened Pieces
  import opened Chessboard
  import opened Attacks

  /** The promotion choices, in the order the program offers them. */
  const PromotionKinds: seq<PieceKind> := [Queen, Rook, Bishop, Knight]

  /** (r, c) is on the board and holds no piece of colour `color`. */
  predicate Enterable(b: Board, r: int, c: int, color: Color) {
    InBounds(r, c) && (Get(b, r, c).None? || Get(b, r, c).value.color != color)
  }

  /** The move starts on (row, col), ends on the board, and an en-passant
      capture ends one step forward for `color`. */
  predicate Anchored(m: Move, row: int, col: int, color: Color) {
    m.fromRow == row && m.fromCol == col && InBounds(m.toRow, m.toCol)
    && (m.isEnPassant ==> m.toRow == row + Forward(color))
  }

  // ---------------------------------------------------------------------------
  // Pawns

  function Promotions(row: int, col: int, tr: int, tc: int): (ms: seq<Move>)
    ensures |ms| == 4
    ensures forall i :: 0 <= i < 4 ==> ms[i] == Move(row, col, tr, tc, Some(PromotionKinds[i]), false, false)
  {
    seq(4, i requires 0 <= i < 4 => Move(row, col, tr, tc, Some(PromotionKinds[i]), false, false))
  }

  /** A pawn step onto (tr, tc): the four promotions on the last rows, the
      plain step elsewhere. */
  function PawnStep(row: int, col: int, tr: int, tc: int): (ms: seq<Move>)
    ensures |ms| > 0
    ensures forall m <- ms :: m.fromRow == row && m.fromCol == col && m.toRow == tr && m.toCol == tc
    ensures forall m <- ms :: !m.isEnPassant && !m.isCastling
    ensures forall m <- ms :: m.promotion.Some? <==> tr == 0 || tr == 7
  {
    if tr == 0 || tr == 7 then Promotions(row, col, tr, tc) else [Step(row, col, tr, tc)]
  }

  function StartRow(c: Color): int {
    if c == White then 6 else 1
  }

  /** The single step forward and, from the start row, the double step. */
  function PawnPushes(b: Board, row: int, col: int, color: Color): (ms: seq<Move>)
    requires InBounds(row, col)
    ensures forall m <- ms :: Anchored(m, row, col, color) && !m.isEnPassant && !m.isCastling
    ensures forall m <- ms :: m.toCol == col && EmptyAt(b, m.toRow, m.toCol)
    ensures forall m <- ms ::
              || m.toRow == row + Forward(color)
              || (row == StartRow(color) && m.toRow == row + 2 * Forward(color) && EmptyAt(b, row + Forward(color), col))
    ensures !EmptyAt(b, row + Forward(color), col) ==> ms == []
    ensures EmptyAt(b, row + Forward(color), col) ==> forall m <- PawnStep(row, col, row + Forward(color), col) :: m in ms
    ensures row == StartRow(color) && EmptyAt(b, row + Forward(color), col) && EmptyAt(b, row + 2 * Forward(color), col)
      ==> Step(row, col, row + 2 * Forward(color), col) in ms
  {
    var d := Forward(color);
    var one := row + d;
    if InBounds(one, col) && Get(b, one, col).None? then
      PawnStep(row, col, one, col)
      + (if row == StartRow(color) && Get(b, row + 2 * d, col).None? then [Step(row, col, row + 2 * d, col)] else [])
    else []
  }

  /** The diagonal capture towards column `col + dc`. */
  function PawnCapture(b: Board, row: int, col: int, color: Color, dc: int): (ms: seq<Move>)
    ensures forall m <- ms :: Anchored(m, row, col, color) && !m.isEnPassant && !m.isCastling
    ensures forall m <- ms :: m.toRow == row + Forward(color) && m.toCol == col + dc
    ensures forall m <- ms :: InBounds(m.toRow, m.toCol) && Get(b, m.toRow, m.toCol).Some? && Get(b, m.toRow, m.toCol).value.color != color
    ensures |ms| > 0 <==> Enterable(b, row + Forward(color), col + dc, color) && Get(b, row + Forward(color), col + dc).Some?
  {
    var tr, tc := row + Forward(color), col + dc;
    if !InBounds(tr, tc) then []
    else
      var target := Get(b, tr, tc);
      if target.Some? && target.value.color != color then PawnStep(row, col, tr, tc) else []
  }

  function Abs(x: int): nat {
    if x < 0 then -x else x
  }

  /** The en-passant capture onto the board's target square. */
  function PawnEnPassant(b: Board, row: int, col: int, color: Color): (ms: seq<Move>)
    ensures forall m <- ms :: Anchored(m, row, col, color) && m.isEnPassant && !m.isCastling && m.promotion.None?
    ensures forall m <- ms :: b.enPassant == Some((m.toRow, m.toCol)) && Abs(m.toCol - col) == 1
    ensures |ms| <= 1
    ensures |ms| == 1 <==>
      b.enPassant.Some? && b.enPassant.value.0 == row + Forward(color) && Abs(b.enPassant.value.1 - col) == 1
  {
    match b.enPassant
    case None => []
    case Some(ep) =>
      if ep.0 == row + Forward(color) && Abs(ep.1 - col) == 1 then [Move(row, col, ep.0, ep.1, None, false, true)] else []
  }

  /** What a pawn move can be: a push onto an empty square of its column
      (one step, or two from the start row over an empty square), a
      diagonal step onto a piece of the other side, or en passant onto the
      board's target. */
  predicate PawnMoveShape(b: Board, row: int, col: int, color: Color, m: Move) {
    var one := row + Forward(color);
    || (m.toCol == col && EmptyAt(b, m.toRow, m.toCol) && !m.isEnPassant
        && (m.toRow == one || (row == StartRow(color) && m.toRow == row + 2 * Forward(color) && EmptyAt(b, one, col))))
    || (m.toRow == one && Abs(m.toCol - col) == 1 && !m.isEnPassant && InBounds(m.toRow, m.toCol)
        && Get(b, m.toRow, m.toCol).Some? && Get(b, m.toRow, m.toCol).value.color != color)
    || (m.isEnPassant && m.toRow == one && Abs(m.toCol - col) == 1 && b.enPassant == Some((m.toRow, m.toCol)))
  }

  /** `generate_pawn_moves`: pushes, then the captures towards the lower and
      the higher column, then en passant. */
  function PawnMoves(b: Board, row: int, col: int): (ms: seq<Move>)
    requires InBounds(row, col)
    ensures Get(b, row, col).None? ==> ms == []
    ensures Get(b, row, col).Some? ==> forall m <- ms :: Anchored(m, row, col, Get(b, row, col).value.color)
    ensures forall m <- ms :: !m.isCastling
    ensures Get(b, row, col).Some? ==> forall m <- ms :: PawnMoveShape(b, row, col, Get(b, row, col).value.color, m)
  {
    match Get(b, row, col)
    case None => []
    case Some(p) =>
      var pushes := PawnPushes(b, row, col, p.color);
      var left := PawnCapture(b, row, col, p.color, -1);
      var right := PawnCapture(b, row, col, p.color, 1);
      var ep := PawnEnPassant(b, row, col, p.color);
      pushes + left + right + ep
  }

  /** Every opposing piece diagonally in front of a pawn can be captured by it. */
  lemma PawnCapturesComplete(b: Board, row: int, col: int, dc: int)
    requires InBounds(row, col) && Get(b, row, col).Some? && (dc == -1 || dc == 1)
    requires var color := Get(b, row, col).value.color;
      InBounds(row + Forward(color), col + dc)
      && Get(b, row + Forward(color), col + dc).Some? && Get(b, row + Forward(color), col + dc).value.color != color
    ensures exists m <- PawnMoves(b, row, col) :: m.toRow == row + Forward(Get(b, row, col).value.color) && m.toCol == col + dc
  {
    var p := Get(b, row, col).value;
    var caps := PawnCapture(b, row, col, p.color, dc);
    var m := caps[0];
    var pushes := PawnPushes(b, row, col, p.color);
    var left := PawnCapture(b, row, col, p.color, -1);
    var right := PawnCapture(b, row, col, p.color, 1);
    var ep := PawnEnPassant(b, row, col, p.color);
    assert PawnMoves(b, row, col) == pushes + left + right + ep;
    assert m in PawnMoves(b, row, col);
  }

  /** The parts `generate_pawn_moves` appends, in order. */
  lemma PawnMovesParts(b: Board, row: int, col: int)
    requires InBounds(row, col) && Get(b, row, col).Some?
    ensures var color := Get(b, row, col).value.color;
      PawnMoves(b, row, col) == PawnPushes(b, row, col, color) + PawnCapture(b, row, col, color, -1)
        + PawnCapture(b, row, col, color, 1) + PawnEnPassant(b, row, col, color)
  {
  }

  /** A pawn with an empty square in front of it can step there (with every
      promotion on the last row). */
  lemma PawnPushComplete(b: Board, row: int, col: int)
    requires InBounds(row, col) && Get(b, row, col).Some?
    requires EmptyAt(b, row + Forward(Get(b, row, col).value.color), col)
    ensures var one := row + Forward(Get(b, row, col).value.color);
      forall m <- PawnStep(row, col, one, col) :: m in PawnMoves(b, row, col)
  {
    PawnMovesParts(b, row, col);
  }

  /** A pawn on its start row with both squares in front of it empty can
      step two rows. */
  lemma PawnDoubleStepComplete(b: Board, row: int, col: int)
    requires InBounds(row, col) && Get(b, row, col).Some?
    requires var color := Get(b, row, col).value.color;
      row == StartRow(color) && EmptyAt(b, row + Forward(color), col) && EmptyAt(b, row + 2 * Forward(color), col)
    ensures Step(row, col, row + 2 * Forward(Get(b, row, col).value.color), col) in PawnMoves(b, row, col)
  {
    PawnMovesParts(b, row, col);
  }

  /** A pawn beside the column of the en-passant target, one row behind it,
      can take en passant onto it. */
  lemma PawnEnPassantComplete(b: Board, row: int, col: int)
    requires InBounds(row, col) && Get(b, row, col).Some? && b.enPassant.Some?
    requires b.enPassant.value.0 == row + Forward(Get(b, row, col).value.color) && Abs(b.enPassant.value.1 - col) == 1
    ensures Move(row, col, b.enPassant.value.0, b.enPassant.value.1, None, false, true) in PawnMoves(b, row, col)
  {
    PawnMovesParts(b, row, col);
    var ep := PawnEnPassant(b, row, col, Get(b, row, col).value.color);
    assert ep[0] in ep;
  }

  // ---------------------------------------------------------------------------
  // Knights and kings

  /** `m` is the step by one of the offsets onto a square the mover may enter. */
  predicate OffsetStep(b: Board, row: int, col: int, color: Color, offsets: seq<(int, int)>, m: Move) {
    exists i :: 0 <= i < |offsets| && m == Step(row, col, row + offsets[i].0, col + offsets[i].1)
      && Enterable(b, row + offsets[i].0, col + offsets[i].1, color)
  }

  /** One step per offset onto every square of the board not held by the mover. */
  function OffsetMoves(b: Board, row: int, col: int, color: Color, offsets: seq<(int, int)>): (ms: seq<Move>)
    ensures forall m :: m in ms <==> OffsetStep(b, row, col, color, offsets, m)
  {
    if |offsets| == 0 then []
    else
      var r, c := row + offsets[0].0, col + offsets[0].1;
      var rest := OffsetMoves(b, row, col, color, offsets[1..]);
      assert forall i :: 1 <= i < |offsets| ==> offsets[i] == offsets[1..][i - 1];
      (if Enterable(b, r, c, color) then [Step(row, col, r, c)] else []) + rest
  }

  /** The king-side right is held, (row, 5) and (row, 6) are empty and neither is attacked. */
  predicate KingSideClear(b: Board, row: int, color: Color)
    requires 0 <= row < 8
  {
    && KingSideRight(b.rights, color)
    && EmptyAt(b, row, 5) && EmptyAt(b, row, 6)
    && !IsSquareAttacked(b, row, 5, Opposite(color)) && !IsSquareAttacked(b, row, 6, Opposite(color))
  }

  /** The queen-side right is held, (row, 1) to (row, 3) are empty and
      neither (row, 3) nor (row, 2) is attacked. */
  predicate QueenSideClear(b: Board, row: int, color: Color)
    requires 0 <= row < 8
  {
    && QueenSideRight(b.rights, color)
    && EmptyAt(b, row, 1) && EmptyAt(b, row, 2) && EmptyAt(b, row, 3)
    && !IsSquareAttacked(b, row, 3, Opposite(color)) && !IsSquareAttacked(b, row, 2, Opposite(color))
  }

  /** Castling, king side then queen side: the king stands unchecked on its
      home square, the right is held, the squares between king and rook are
      empty, and the squares the king crosses are not attacked. */
  function CastlingMoves(b: Board, row: int, col: int, color: Color): (ms: seq<Move>)
    requires InBounds(row, col)
    ensures forall m <- ms :: m.isCastling && m.promotion.None? && !m.isEnPassant
    ensures forall m <- ms ::
              && !IsInCheck(b, color) && row == HomeRow(color) && col == 4
              && m.fromRow == row && m.fromCol == col && m.toRow == row
    ensures forall m <- ms :: m.toCol == 6 ==> KingSideClear(b, row, color)
    ensures forall m <- ms :: m.toCol != 6 ==> m.toCol == 2 && QueenSideClear(b, row, color)
    ensures |ms| <= 2
    ensures (!IsInCheck(b, color) && row == HomeRow(color) && col == 4 && KingSideClear(b, row, color))
      ==> Move(row, col, row, 6, None, true, false) in ms
    ensures (!IsInCheck(b, color) && row == HomeRow(color) && col == 4 && QueenSideClear(b, row, color))
      ==> Move(row, col, row, 2, None, true, false) in ms
  {
    if IsInCheck(b, color) then []
    else if row != HomeRow(color) || col != 4 then []
    else
      var enemy := Opposite(color);
      (if KingSideRight(b.rights, color) && Get(b, row, 5).None? && Get(b, row, 6).None?
          && !IsSquareAttacked(b, row, 5, enemy) && !IsSquareAttacked(b, row, 6, enemy)
       then [Move(row, col, row, 6, None, true, false)] else [])
      + (if QueenSideRight(b.rights, color) && Get(b, row, 1).None? && Get(b, row, 2).None? && Get(b, row, 3).None?
          && !IsSquareAttacked(b, row, 3, enemy) && !IsSquareAttacked(b, row, 2, enemy)
         then [Move(row, col, row, 2, None, true, false)] else [])
  }

  function HomeRow(c: Color): int {
    if c == White then 7 else 0
  }

  predicate KingSideRight(rights: Rights, c: Color) {
    if c == White then rights.whiteKing else rights.blackKing
  }

  predicate QueenSideRight(rights: Rights, c: Color) {
    if c == White then rights.whiteQueen else rights.blackQueen
  }

  /** `generate_king_moves`: the eight neighbours, then castling. */
  function KingMoves(b: Board, row: int, col: int, color: Color): (ms: seq<Move>)
    requires InBounds(row, col)
    ensures forall m <- ms :: Anchored(m, row, col, color) && !m.isEnPassant
  {
    OffsetMoves(b, row, col, color, KingOffsets) + CastlingMoves(b, row, col, color)
  }

  // ---------------------------------------------------------------------------
  // Sliding pieces

  /** The moves along one ray: every empty square up to the first piece, and
      that piece's square when it belongs to the other side. */
  function RayMoves(b: Board, fr: int, fc: int, r: int, c: int, dr: int, dc: int, color: Color): (ms: seq<Move>)
    requires IsDirection(dr, dc)
    ensures forall m <- ms :: m == Step(fr, fc, m.toRow, m.toCol) && InBounds(m.toRow, m.toCol)
    decreases RayMeasure(r, c, dr, dc)
  {
    if !InBounds(r, c) then []
    else if Get(b, r, c).None? then [Step(fr, fc, r, c)] + RayMoves(b, fr, fc, r + dr, c + dc, dr, dc, color)
    else if Get(b, r, c).value.color != color then [Step(fr, fc, r, c)]
    else []
  }

  /** A ray reaches the square `k` steps from its start exactly when the `k`
      squares before it are empty and the square is not the mover's. */
  lemma {:induction false} RayMovesWalk(b: Board, fr: int, fc: int, r: int, c: int, dr: int, dc: int, color: Color, k: nat)
    requires IsDirection(dr, dc)
    ensures Step(fr, fc, r + k * dr, c + k * dc) in RayMoves(b, fr, fc, r, c, dr, dc, color) <==>
      Enterable(b, r + k * dr, c + k * dc, color) && Empties(b, r, c, dr, dc, k)
    decreases k
  {
    if k > 0 {
      assert (r + k * dr, c + k * dc) != (r, c);
      FarEnd(r, dr, k + 1);
      FarEnd(c, dc, k + 1);
      RayMovesWalk(b, fr, fc, r + dr, c + dc, dr, dc, color, k - 1);
    }
  }

  /** Every move of a ray lands some number of steps along it. */
  lemma RayMovesSteps(b: Board, fr: int, fc: int, r: int, c: int, dr: int, dc: int, color: Color, m: Move) returns (k: nat)
    requires IsDirection(dr, dc) && m in RayMoves(b, fr, fc, r, c, dr, dc, color)
    ensures m == Step(fr, fc, r + k * dr, c + k * dc)
    decreases RayMeasure(r, c, dr, dc)
  {
    if m == Step(fr, fc, r, c) {
      k := 0;
    } else {
      var k1 := RayMovesSteps(b, fr, fc, r + dr, c + dc, dr, dc, color, m);
      k := k1 + 1;
      FarEnd(r, dr, k + 1);
      FarEnd(c, dc, k + 1);
    }
  }

  /** `m` is a move of the ray from (row, col) along `d`. */
  predicate InRay(b: Board, row: int, col: int, color: Color, d: (int, int), m: Move)
    requires IsDirection(d.0, d.1)
  {
    m in RayMoves(b, row, col, row + d.0, col + d.1, d.0, d.1, color)
  }

  /** `m` belongs to the ray of one of the directions. */
  predicate InSomeRay(b: Board, row: int, col: int, color: Color, dirs: seq<(int, int)>, m: Move)
    requires AllDirections(dirs)
  {
    exists i :: 0 <= i < |dirs| && InRay(b, row, col, color, dirs[i], m)
  }

  /** The ray of each direction from (row, col); nothing for a non-direction. */
  function RaysFrom(b: Board, row: int, col: int, color: Color): ((int, int)) -> seq<Move> {
    (d: (int, int)) => if IsDirection(d.0, d.1) then RayMoves(b, row, col, row + d.0, col + d.1, d.0, d.1, color) else []
  }

  /** The moves `f` gives for each direction, in order. */
  function Concat(f: ((int, int)) -> seq<Move>, dirs: seq<(int, int)>): seq<Move> {
    if |dirs| == 0 then [] else f(dirs[0]) + Concat(f, dirs[1..])
  }

  /** A move of the concatenation is a move of one of its directions, and back. */
  lemma {:induction false} ConcatMembers(f: ((int, int)) -> seq<Move>, dirs: seq<(int, int)>, m: Move)
    ensures m in Concat(f, dirs) <==> exists i :: 0 <= i < |dirs| && m in f(dirs[i])
  {
    if |dirs| > 0 {
      ConcatMembers(f, dirs[1..], m);
      if m in Concat(f, dirs[1..]) {
        var i :| 0 <= i < |dirs[1..]| && m in f(dirs[1..][i]);
        assert dirs[1..][i] == dirs[i + 1];
      }
      if exists i :: 0 <= i < |dirs| && m in f(dirs[i]) {
        var i :| 0 <= i < |dirs| && m in f(dirs[i]);
        if i > 0 {
          assert dirs[1..][i - 1] == dirs[i];
        }
      }
    }
  }

  /** `generate_sliding_moves`: the rays of the given directions, in order. */
  function SlidingMoves(b: Board, row: int, col: int, color: Color, dirs: seq<(int, int)>): (ms: seq<Move>)
    requires AllDirections(dirs)
  {
    Concat(RaysFrom(b, row, col, color), dirs)
  }

  /** A sliding piece's moves are exactly the moves of its rays. */
  lemma SlidingMembers(b: Board, row: int, col: int, color: Color, dirs: seq<(int, int)>, m: Move)
    requires AllDirections(dirs)
    ensures m in SlidingMoves(b, row, col, color, dirs) <==> InSomeRay(b, row, col, color, dirs, m)
  {
    var f := RaysFrom(b, row, col, color);
    ConcatMembers(f, dirs, m);
    if m in SlidingMoves(b, row, col, color, dirs) {
      var i :| 0 <= i < |dirs| && m in f(dirs[i]);
      assert InRay(b, row, col, color, dirs[i], m);
    }
    if InSomeRay(b, row, col, color, dirs, m) {
      var i :| 0 <= i < |dirs| && InRay(b, row, col, color, dirs[i], m);
      assert m in f(dirs[i]);
    }
  }

  /** Every sliding move starts on (row, col) and ends on the board. */
  lemma SlidingAnchored(b: Board, row: int, col: int, color: Color, dirs: seq<(int, int)>)
    requires AllDirections(dirs)
    ensures forall m <- SlidingMoves(b, row, col, color, dirs) :: m == Step(row, col, m.toRow, m.toCol) && InBounds(m.toRow, m.toCol)
  {
    forall m <- SlidingMoves(b, row, col, color, dirs)
      ensures m == Step(row, col, m.toRow, m.toCol) && InBounds(m.toRow, m.toCol)
    {
      SlidingMembers(b, row, col, color, dirs, m);
    }
  }

  /** The queen moves along the bishop's directions, then the rook's. */
  const QueenDirections: seq<(int, int)> := BishopDirections + RookDirections

  // ---------------------------------------------------------------------------
  // All pieces

  /** The moves the piece on (row, col) generates, by its kind. */
  function PieceMoves(b: Board, row: int, col: int): (ms: seq<Move>)
    requires InBounds(row, col) && Get(b, row, col).Some?
    ensures forall m <- ms :: Anchored(m, row, col, Get(b, row, col).value.color)
  {
    var p := Get(b, row, col).value;
    SlidingAnchored(b, row, col, p.color, BishopDirections);
    SlidingAnchored(b, row, col, p.color, RookDirections);
    SlidingAnchored(b, row, col, p.color, QueenDirections);
    match p.kind
    case Pawn => PawnMoves(b, row, col)
    case Knight => OffsetMoves(b, row, col, p.color, KnightOffsets)
    case Bishop => SlidingMoves(b, row, col, p.color, BishopDirections)
    case Rook => SlidingMoves(b, row, col, p.color, RookDirections)
    case Queen => SlidingMoves(b, row, col, p.color, QueenDirections)
    case King => KingMoves(b, row, col, p.color)
  }

  /** The square numbered `i` in row-major order holds a piece of `color`. */
  predicate OwnAt(b: Board, i: int, color: Color) {
    0 <= i < 64 && Get(b, i / 8, i % 8).Some? && Get(b, i / 8, i % 8).value.color == color
  }

  /** The moves of the mover's piece on square `j` (row-major), if any. */
  function MovesAt(b: Board, color: Color, j: nat): seq<Move> {
    if OwnAt(b, j, color) then PieceMoves(b, j / 8, j % 8) else []
  }

  /** The moves of squares `i` to 63 in order, `f` giving each square's. */
  function Gather(f: nat -> seq<Move>, i: nat): seq<Move>
    requires i <= 64
    decreases 64 - i
  {
    if i == 64 then [] else f(i) + Gather(f, i + 1)
  }

  /** Every gathered move comes from one of the squares `i` to 63. */
  lemma {:induction false} GatherWitness(f: nat -> seq<Move>, i: nat, m: Move) returns (j: nat)
    requires i <= 64 && m in Gather(f, i)
    ensures i <= j < 64 && m in f(j)
    decreases 64 - i
  {
    if m in f(i) {
      j := i;
    } else {
      j := GatherWitness(f, i + 1, m);
    }
  }

  /** Every move of the squares `i` to 63 is gathered. */
  lemma {:induction false} GatherIncludes(f: nat -> seq<Move>, i: nat, j: nat, m: Move)
    requires i <= j < 64 && m in f(j)
    ensures m in Gather(f, i)
    decreases j - i
  {
    if j > i {
      GatherIncludes(f, i + 1, j, m);
    }
  }

  /** Some piece of `color` generates `m`. */
  ghost predicate GeneratedBy(b: Board, color: Color, m: Move) {
    exists row, col :: InBounds(row, col) && Get(b, row, col).Some? && Get(b, row, col).value.color == color
      && m in PieceMoves(b, row, col)
  }

  /** `m` starts on a piece of `color` and ends on the board, an en-passant
      capture one step forward. */
  predicate Playable(b: Board, m: Move, color: Color) {
    InBounds(m.fromRow, m.fromCol) && Get(b, m.fromRow, m.fromCol).Some?
    && Get(b, m.fromRow, m.fromCol).value.color == color && Anchored(m, m.fromRow, m.fromCol, color)
  }

  /** Each square's moves for `color`, as `Gather` takes them. */
  function SquareMoves(b: Board, color: Color): nat -> seq<Move> {
    (j: nat) => MovesAt(b, color, j)
  }

  /** A move gathered from the board is generated by a piece of `color` and
      starts on it. */
  lemma GatheredIsGenerated(b: Board, color: Color, m: Move)
    requires m in Gather(SquareMoves(b, color), 0)
    ensures GeneratedBy(b, color, m) && Playable(b, m, color)
  {
    var j := GatherWitness(SquareMoves(b, color), 0, m);
    assert m in MovesAt(b, color, j);
    var row, col := j / 8, j % 8;
    assert InBounds(row, col) && Get(b, row, col).Some? && Get(b, row, col).value.color == color;
    assert m in PieceMoves(b, row, col);
  }

  /** A move a piece of `color` generates is gathered from the board. */
  lemma GeneratedIsGathered(b: Board, color: Color, m: Move, row: int, col: int)
    requires InBounds(row, col) && Get(b, row, col).Some? && Get(b, row, col).value.color == color
    requires m in PieceMoves(b, row, col)
    ensures m in Gather(SquareMoves(b, color), 0)
  {
    SquareIndex(row, col);
    assert OwnAt(b, row * 8 + col, color);
    assert m in MovesAt(b, color, row * 8 + col);
    GatherIncludes(SquareMoves(b, color), 0, row * 8 + col, m);
  }

  /** `generate_pseudo_legal_moves`: the moves of `color`'s pieces, square by
      square in row-major order. */
  function PseudoLegalMoves(b: Board, color: Color): (ms: seq<Move>)
    ensures forall m :: m in ms <==> GeneratedBy(b, color, m)
    ensures forall m <- ms :: Playable(b, m, color)
  {
    var ms := Gather(SquareMoves(b, color), 0);
    forall m | m in ms
      ensures GeneratedBy(b, color, m) && Playable(b, m, color)
    {
      GatheredIsGenerated(b, color, m);
    }
    forall m | GeneratedBy(b, color, m)
      ensures m in ms
    {
      var row, col :| InBounds(row, col) && Get(b, row, col).Some? && Get(b, row, col).value.color == color
        && m in PieceMoves(b, row, col);
      GeneratedIsGathered(b, color, m, row, col);
    }
    ms
  }
}
