/** The attack test agrees with the move generator: a square held by the other
    side is attacked by `side` exactly when some pseudo-legal move of `side`
    lands on it. The agreement holds for the corrected pawn test and fails for
    the pawn test as the program writes it. */
module AttackMap {
  import opened Common
  import opened Notation
  import opened Pieces
  import opened Chessboard
  import opened Attacks
  import opened MoveGen

  /** (row, col) holds a piece that `side` may capture. */
  predicate EnemyAt(b: Board, row: int, col: int, side: Color) {
    InBounds(row, col) && Get(b, row, col).Some? && Get(b, row, col).value.color != side
  }

  /** Some pseudo-legal move of `side` lands on (row, col). */
  ghost predicate Capturable(b: Board, row: int, col: int, side: Color) {
    exists m <- PseudoLegalMoves(b, side) :: m.toRow == row && m.toCol == col
  }

  /** Index of the flipped rook direction. */
  function Flip(i: int): int {
    if i % 2 == 0 then i + 1 else i - 1
  }

  /** Each offset and direction list holds the reverse of each of its entries. */
  lemma OffsetReversed(offsets: seq<(int, int)>, i: int)
    requires offsets == KnightOffsets || offsets == KingOffsets
    requires 0 <= i < 8
    ensures offsets[7 - i] == (-offsets[i].0, -offsets[i].1)
  {
  }

  lemma BishopReversed(i: int)
    requires 0 <= i < 4
    ensures BishopDirections[3 - i] == (-BishopDirections[i].0, -BishopDirections[i].1)
  {
  }

  lemma RookReversed(i: int)
    requires 0 <= i < 4
    ensures 0 <= Flip(i) < 4 && RookDirections[Flip(i)] == (-RookDirections[i].0, -RookDirections[i].1)
  {
  }

  lemma DirectionLists()
    ensures AllDirections(RookDirections) && AllDirections(BishopDirections) && AllDirections(QueenDirections)
    ensures |QueenDirections| == 8
    ensures forall i :: 0 <= i < 4 ==> QueenDirections[i] == BishopDirections[i] && QueenDirections[i + 4] == RookDirections[i]
  {
  }

  // ---------------------------------------------------------------------------
  // Rays read from either end

  /** (tr, tc) lies along (dr, dc) from (r, c), and every square strictly
      between the two is empty. */
  predicate Between(b: Board, r: int, c: int, tr: int, tc: int, dr: int, dc: int)
    requires IsDirection(dr, dc)
    decreases RayMeasure(r, c, dr, dc)
  {
    InBounds(r + dr, c + dc) &&
    ((r + dr == tr && c + dc == tc) || (EmptyAt(b, r + dr, c + dc) && Between(b, r + dr, c + dc, tr, tc, dr, dc)))
  }

  /** The first piece met after (r, c) is (tr, tc) exactly when that square is
      occupied and the squares before it are empty. */
  lemma {:induction false} RayHitBetween(b: Board, r: int, c: int, tr: int, tc: int, dr: int, dc: int)
    requires IsDirection(dr, dc)
    ensures RayHit(b, r + dr, c + dc, dr, dc) == Some((tr, tc)) <==>
      Between(b, r, c, tr, tc, dr, dc) && InBounds(tr, tc) && Get(b, tr, tc).Some?
    decreases RayMeasure(r, c, dr, dc)
  {
    var r1, c1 := r + dr, c + dc;
    if !InBounds(r1, c1) {
      assert RayHit(b, r1, c1, dr, dc).None?;
    } else if Get(b, r1, c1).Some? {
      assert RayHit(b, r1, c1, dr, dc) == Some((r1, c1));
    } else if r1 == tr && c1 == tc {
      RayHitBetween(b, r1, c1, tr, tc, dr, dc);
    } else {
      assert RayHit(b, r1, c1, dr, dc) == RayHit(b, r1 + dr, c1 + dc, dr, dc);
      assert Between(b, r, c, tr, tc, dr, dc) == Between(b, r1, c1, tr, tc, dr, dc);
      RayHitBetween(b, r1, c1, tr, tc, dr, dc);
    }
  }

  /** An empty square at the far end lengthens the stretch by one. */
  lemma {:induction false} BetweenExtend(b: Board, r: int, c: int, tr: int, tc: int, dr: int, dc: int)
    requires IsDirection(dr, dc)
    requires Between(b, r, c, tr, tc, dr, dc) && EmptyAt(b, tr, tc) && InBounds(tr + dr, tc + dc)
    ensures Between(b, r, c, tr + dr, tc + dc, dr, dc)
    decreases RayMeasure(r, c, dr, dc)
  {
    if r + dr == tr && c + dc == tc {
      assert Between(b, tr, tc, tr + dr, tc + dc, dr, dc);
    } else {
      BetweenExtend(b, r + dr, c + dc, tr, tc, dr, dc);
    }
  }

  /** The same stretch walked from its other end. */
  lemma {:induction false} BetweenReverse(b: Board, r: int, c: int, tr: int, tc: int, dr: int, dc: int)
    requires IsDirection(dr, dc) && InBounds(r, c)
    requires Between(b, r, c, tr, tc, dr, dc)
    ensures Between(b, tr, tc, r, c, -dr, -dc)
    decreases RayMeasure(r, c, dr, dc)
  {
    if r + dr == tr && c + dc == tc {
      assert tr + -dr == r && tc + -dc == c;
    } else {
      BetweenReverse(b, r + dr, c + dc, tr, tc, dr, dc);
      BetweenExtend(b, tr, tc, r + dr, c + dc, -dr, -dc);
      assert r + dr + -dr == r && c + dc + -dc == c;
    }
  }

  /** Against a piece it may capture, a ray of moves stops exactly at the first
      piece in its way. */
  lemma {:induction false} RayMovesHit(b: Board, fr: int, fc: int, r: int, c: int, dr: int, dc: int, side: Color, tr: int, tc: int)
    requires IsDirection(dr, dc) && EnemyAt(b, tr, tc, side)
    ensures Step(fr, fc, tr, tc) in RayMoves(b, fr, fc, r, c, dr, dc, side) <==> RayHit(b, r, c, dr, dc) == Some((tr, tc))
    decreases RayMeasure(r, c, dr, dc)
  {
    if InBounds(r, c) && Get(b, r, c).None? {
      RayMovesHit(b, fr, fc, r + dr, c + dc, dr, dc, side, tr, tc);
      assert (r, c) != (tr, tc);
    }
  }

  /** The squares between two squares are the same read from either end. */
  lemma BetweenSymmetric(b: Board, r: int, c: int, tr: int, tc: int, dr: int, dc: int)
    requires IsDirection(dr, dc) && InBounds(r, c) && InBounds(tr, tc)
    ensures Between(b, r, c, tr, tc, dr, dc) <==> Between(b, tr, tc, r, c, -dr, -dc)
  {
    if Between(b, r, c, tr, tc, dr, dc) {
      BetweenReverse(b, r, c, tr, tc, dr, dc);
    }
    if Between(b, tr, tc, r, c, -dr, -dc) {
      BetweenReverse(b, tr, tc, r, c, -dr, -dc);
      assert -(-dr) == dr && -(-dc) == dc;
    }
  }

  /** A slider on (ar, ac) reaches the enemy-held (row, col) along `d` exactly
      when the first piece met from (row, col) along the reverse direction `e`
      is the slider. */
  lemma SliderDual(b: Board, ar: int, ac: int, row: int, col: int, d: (int, int), e: (int, int), side: Color)
    requires IsDirection(d.0, d.1) && e == (-d.0, -d.1)
    requires EnemyAt(b, row, col, side) && InBounds(ar, ac) && Get(b, ar, ac).Some?
    ensures InRay(b, ar, ac, side, d, Step(ar, ac, row, col)) <==>
      RayHit(b, row + e.0, col + e.1, e.0, e.1) == Some((ar, ac))
  {
    InRayHit(b, ar, ac, d, side, row, col);
    HitDual(b, ar, ac, row, col, d.0, d.1, e.0, e.1);
  }

  /** The ray along `d` reaches an enemy-held square exactly when that square
      holds the first piece met along `d`. */
  lemma InRayHit(b: Board, ar: int, ac: int, d: (int, int), side: Color, row: int, col: int)
    requires IsDirection(d.0, d.1) && EnemyAt(b, row, col, side)
    ensures InRay(b, ar, ac, side, d, Step(ar, ac, row, col)) <==> RayHit(b, ar + d.0, ac + d.1, d.0, d.1) == Some((row, col))
  {
    RayMovesHit(b, ar, ac, ar + d.0, ac + d.1, d.0, d.1, side, row, col);
  }

  /** Between two occupied squares, the first piece met from one along a
      direction is the other exactly when the same holds the other way round. */
  lemma HitDual(b: Board, ar: int, ac: int, row: int, col: int, dr: int, dc: int, er: int, ec: int)
    requires IsDirection(dr, dc) && er == -dr && ec == -dc
    requires InBounds(row, col) && Get(b, row, col).Some? && InBounds(ar, ac) && Get(b, ar, ac).Some?
    ensures RayHit(b, ar + dr, ac + dc, dr, dc) == Some((row, col)) <==>
      RayHit(b, row + er, col + ec, er, ec) == Some((ar, ac))
  {
    RayHitBetween(b, ar, ac, row, col, dr, dc);
    RayHitBetween(b, row, col, ar, ac, er, ec);
    BetweenSymmetric(b, ar, ac, row, col, dr, dc);
  }

  // ---------------------------------------------------------------------------
  // The generator of each kind

  function OffsetsOf(kind: PieceKind): seq<(int, int)> {
    if kind == Knight then KnightOffsets else KingOffsets
  }

  lemma PieceMovesByKind(b: Board, ar: int, ac: int)
    requires InBounds(ar, ac) && Get(b, ar, ac).Some?
    ensures var p := Get(b, ar, ac).value;
      && (p.kind == Pawn ==> PieceMoves(b, ar, ac) == PawnMoves(b, ar, ac))
      && (p.kind == Knight ==> PieceMoves(b, ar, ac) == OffsetMoves(b, ar, ac, p.color, KnightOffsets))
      && (p.kind == Bishop ==> PieceMoves(b, ar, ac) == SlidingMoves(b, ar, ac, p.color, BishopDirections))
      && (p.kind == Rook ==> PieceMoves(b, ar, ac) == SlidingMoves(b, ar, ac, p.color, RookDirections))
      && (p.kind == Queen ==> PieceMoves(b, ar, ac) == SlidingMoves(b, ar, ac, p.color, QueenDirections))
      && (p.kind == King ==>
            PieceMoves(b, ar, ac) == OffsetMoves(b, ar, ac, p.color, KingOffsets) + CastlingMoves(b, ar, ac, p.color))
  {
  }

  lemma Generated(b: Board, ar: int, ac: int, side: Color, m: Move)
    requires InBounds(ar, ac) && Get(b, ar, ac).Some? && Get(b, ar, ac).value.color == side
    requires m in PieceMoves(b, ar, ac)
    ensures m in PseudoLegalMoves(b, side)
  {
    assert GeneratedBy(b, side, m);
  }

  /** Castling only ever lands on an empty square. */
  lemma CastlingLandsEmpty(b: Board, ar: int, ac: int, side: Color, m: Move)
    requires InBounds(ar, ac) && m in CastlingMoves(b, ar, ac, side)
    ensures EmptyAt(b, m.toRow, m.toCol)
  {
    if m.toCol == 6 {
      assert KingSideClear(b, ar, side);
    } else {
      assert QueenSideClear(b, ar, side);
    }
  }

  // ---------------------------------------------------------------------------
  // From an attack to a move

  lemma PawnAttackGivesMove(b: Board, row: int, col: int, side: Color) returns (ar: int, ac: int, m: Move)
    requires EnemyAt(b, row, col, side) && PawnAttacks(b, row, col, side)
    ensures Holds(b, ar, ac, side, Pawn) && m in PawnMoves(b, ar, ac) && m.toRow == row && m.toCol == col
  {
    ar := row - Forward(side);
    ac := if Holds(b, ar, col - 1, side, Pawn) then col - 1 else col + 1;
    PawnCapturesComplete(b, ar, ac, col - ac);
    m :| m in PawnMoves(b, ar, ac) && m.toRow == row && m.toCol == col;
  }

  lemma OffsetAttackGivesMove(b: Board, row: int, col: int, side: Color, kind: PieceKind) returns (ar: int, ac: int)
    requires kind == Knight || kind == King
    requires EnemyAt(b, row, col, side) && OffsetAttack(b, row, col, OffsetsOf(kind), side, kind)
    ensures Holds(b, ar, ac, side, kind) && Step(ar, ac, row, col) in OffsetMoves(b, ar, ac, side, OffsetsOf(kind))
  {
    var offsets := OffsetsOf(kind);
    var i :| 0 <= i < |offsets| && Holds(b, row + offsets[i].0, col + offsets[i].1, side, kind);
    OffsetReversed(offsets, i);
    ar, ac := row + offsets[i].0, col + offsets[i].1;
    assert ar + offsets[7 - i].0 == row && ac + offsets[7 - i].1 == col;
    assert OffsetStep(b, ar, ac, side, offsets, Step(ar, ac, row, col));
  }

  /** The first piece met from (row, col) along `d` reaches (row, col) along
      the reverse direction, which its own list holds at index `j`. */
  lemma SliderAttackGivesMove(b: Board, row: int, col: int, side: Color, d: (int, int), gen: seq<(int, int)>, j: int)
      returns (ar: int, ac: int)
    requires IsDirection(d.0, d.1) && EnemyAt(b, row, col, side) && AllDirections(gen)
    requires 0 <= j < |gen| && gen[j] == (-d.0, -d.1)
    requires RayHit(b, row + d.0, col + d.1, d.0, d.1).Some?
    ensures RayHit(b, row + d.0, col + d.1, d.0, d.1) == Some((ar, ac))
    ensures Step(ar, ac, row, col) in SlidingMoves(b, ar, ac, side, gen)
  {
    var a := RayHit(b, row + d.0, col + d.1, d.0, d.1).value;
    ar, ac := a.0, a.1;
    assert -gen[j].0 == d.0 && -gen[j].1 == d.1;
    SliderDual(b, ar, ac, row, col, gen[j], d, side);
    SlidingMembers(b, ar, ac, side, gen, Step(ar, ac, row, col));
  }

  lemma RookRayGivesMove(b: Board, row: int, col: int, side: Color, i: int) returns (ar: int, ac: int)
    requires EnemyAt(b, row, col, side) && 0 <= i < 4
    requires IsDirection(RookDirections[i].0, RookDirections[i].1)
    requires RayAttacker(b, row, col, RookDirections[i], side, {Rook, Queen})
    ensures InBounds(ar, ac) && Get(b, ar, ac).Some? && Get(b, ar, ac).value.color == side
    ensures Get(b, ar, ac).value.kind == Rook ==> Step(ar, ac, row, col) in SlidingMoves(b, ar, ac, side, RookDirections)
    ensures Get(b, ar, ac).value.kind != Rook ==>
      Get(b, ar, ac).value.kind == Queen && Step(ar, ac, row, col) in SlidingMoves(b, ar, ac, side, QueenDirections)
  {
    DirectionLists();
    var d := RookDirections[i];
    RookReversed(i);
    var a := RayHit(b, row + d.0, col + d.1, d.0, d.1).value;
    if Get(b, a.0, a.1).value.kind == Rook {
      ar, ac := SliderAttackGivesMove(b, row, col, side, d, RookDirections, Flip(i));
    } else {
      ar, ac := SliderAttackGivesMove(b, row, col, side, d, QueenDirections, 4 + Flip(i));
    }
  }

  lemma RookLineGivesMove(b: Board, row: int, col: int, side: Color) returns (ar: int, ac: int)
    requires EnemyAt(b, row, col, side)
    requires AllDirections(RookDirections) && RayAttack(b, row, col, RookDirections, side, {Rook, Queen})
    ensures InBounds(ar, ac) && Get(b, ar, ac).Some? && Get(b, ar, ac).value.color == side
    ensures Get(b, ar, ac).value.kind == Rook ==> Step(ar, ac, row, col) in SlidingMoves(b, ar, ac, side, RookDirections)
    ensures Get(b, ar, ac).value.kind != Rook ==>
      Get(b, ar, ac).value.kind == Queen && Step(ar, ac, row, col) in SlidingMoves(b, ar, ac, side, QueenDirections)
  {
    var i :| 0 <= i < 4 && RayAttacker(b, row, col, RookDirections[i], side, {Rook, Queen});
    ar, ac := RookRayGivesMove(b, row, col, side, i);
  }

  lemma BishopRayGivesMove(b: Board, row: int, col: int, side: Color, i: int) returns (ar: int, ac: int)
    requires EnemyAt(b, row, col, side) && 0 <= i < 4
    requires IsDirection(BishopDirections[i].0, BishopDirections[i].1)
    requires RayAttacker(b, row, col, BishopDirections[i], side, {Bishop, Queen})
    ensures InBounds(ar, ac) && Get(b, ar, ac).Some? && Get(b, ar, ac).value.color == side
    ensures Get(b, ar, ac).value.kind == Bishop ==> Step(ar, ac, row, col) in SlidingMoves(b, ar, ac, side, BishopDirections)
    ensures Get(b, ar, ac).value.kind != Bishop ==>
      Get(b, ar, ac).value.kind == Queen && Step(ar, ac, row, col) in SlidingMoves(b, ar, ac, side, QueenDirections)
  {
    DirectionLists();
    var d := BishopDirections[i];
    BishopReversed(i);
    var a := RayHit(b, row + d.0, col + d.1, d.0, d.1).value;
    if Get(b, a.0, a.1).value.kind == Bishop {
      ar, ac := SliderAttackGivesMove(b, row, col, side, d, BishopDirections, 3 - i);
    } else {
      ar, ac := SliderAttackGivesMove(b, row, col, side, d, QueenDirections, 3 - i);
    }
  }

  lemma BishopLineGivesMove(b: Board, row: int, col: int, side: Color) returns (ar: int, ac: int)
    requires EnemyAt(b, row, col, side)
    requires AllDirections(BishopDirections) && RayAttack(b, row, col, BishopDirections, side, {Bishop, Queen})
    ensures InBounds(ar, ac) && Get(b, ar, ac).Some? && Get(b, ar, ac).value.color == side
    ensures Get(b, ar, ac).value.kind == Bishop ==> Step(ar, ac, row, col) in SlidingMoves(b, ar, ac, side, BishopDirections)
    ensures Get(b, ar, ac).value.kind != Bishop ==>
      Get(b, ar, ac).value.kind == Queen && Step(ar, ac, row, col) in SlidingMoves(b, ar, ac, side, QueenDirections)
  {
    var i :| 0 <= i < 4 && RayAttacker(b, row, col, BishopDirections[i], side, {Bishop, Queen});
    ar, ac := BishopRayGivesMove(b, row, col, side, i);
  }

  lemma AttackGivesCapture(b: Board, row: int, col: int, side: Color)
    requires EnemyAt(b, row, col, side) && IsSquareAttacked(b, row, col, side)
    ensures Capturable(b, row, col, side)
  {
    DirectionLists();
    var ar: int, ac: int, m: Move;
    if PawnAttacks(b, row, col, side) {
      ar, ac, m := PawnAttackGivesMove(b, row, col, side);
    } else if OffsetAttack(b, row, col, KnightOffsets, side, Knight) {
      ar, ac := OffsetAttackGivesMove(b, row, col, side, Knight);
      m := Step(ar, ac, row, col);
    } else if RayAttack(b, row, col, RookDirections, side, {Rook, Queen}) {
      ar, ac := RookLineGivesMove(b, row, col, side);
      m := Step(ar, ac, row, col);
    } else if RayAttack(b, row, col, BishopDirections, side, {Bishop, Queen}) {
      ar, ac := BishopLineGivesMove(b, row, col, side);
      m := Step(ar, ac, row, col);
    } else {
      ar, ac := OffsetAttackGivesMove(b, row, col, side, King);
      m := Step(ar, ac, row, col);
      assert m in OffsetMoves(b, ar, ac, side, KingOffsets) + CastlingMoves(b, ar, ac, side);
    }
    PieceMovesByKind(b, ar, ac);
    Generated(b, ar, ac, side, m);
  }

  // ---------------------------------------------------------------------------
  // From a move to an attack

  lemma PawnMoveGivesAttack(b: Board, row: int, col: int, side: Color, ar: int, ac: int, m: Move)
    requires Holds(b, ar, ac, side, Pawn) && EnemyAt(b, row, col, side)
    requires m in PawnMoves(b, ar, ac) && m.toRow == row && m.toCol == col
    ensures PawnAttacks(b, row, col, side)
  {
    assert Holds(b, row - Forward(side), col - (col - ac), side, Pawn);
  }

  /** A piece one offset away from (row, col) is seen from (row, col) by the reverse offset. */
  lemma OffsetBack(b: Board, offsets: seq<(int, int)>, i: int, ar: int, ac: int, row: int, col: int, side: Color, kind: PieceKind)
    requires offsets == KnightOffsets || offsets == KingOffsets
    requires 0 <= i < 8 && row == ar + offsets[i].0 && col == ac + offsets[i].1
    requires Holds(b, ar, ac, side, kind)
    ensures OffsetAttack(b, row, col, offsets, side, kind)
  {
    OffsetReversed(offsets, i);
    var j := 7 - i;
    assert Holds(b, row + offsets[j].0, col + offsets[j].1, side, kind);
  }

  /** The offset a generated step uses. */
  lemma OffsetIndex(b: Board, ar: int, ac: int, side: Color, offsets: seq<(int, int)>, m: Move) returns (i: int)
    requires m in OffsetMoves(b, ar, ac, side, offsets)
    ensures 0 <= i < |offsets| && m.toRow == ar + offsets[i].0 && m.toCol == ac + offsets[i].1
  {
    assert OffsetStep(b, ar, ac, side, offsets, m);
    i :| 0 <= i < |offsets| && m == Step(ar, ac, ar + offsets[i].0, ac + offsets[i].1);
  }

  lemma OffsetMoveGivesAttack(b: Board, row: int, col: int, side: Color, ar: int, ac: int, kind: PieceKind, m: Move)
    requires kind == Knight || kind == King
    requires Holds(b, ar, ac, side, kind)
    requires m in OffsetMoves(b, ar, ac, side, OffsetsOf(kind)) && m.toRow == row && m.toCol == col
    ensures OffsetAttack(b, row, col, OffsetsOf(kind), side, kind)
  {
    var i := OffsetIndex(b, ar, ac, side, OffsetsOf(kind), m);
    OffsetBack(b, OffsetsOf(kind), i, ar, ac, row, col, side, kind);
  }

  /** A slider's move onto (row, col) runs along one of its directions. */
  lemma SliderMoveDirection(b: Board, row: int, col: int, side: Color, ar: int, ac: int, gen: seq<(int, int)>, m: Move)
      returns (i: int)
    requires AllDirections(gen)
    requires m in SlidingMoves(b, ar, ac, side, gen) && m.toRow == row && m.toCol == col
    ensures 0 <= i < |gen| && InRay(b, ar, ac, side, gen[i], Step(ar, ac, row, col))
  {
    SlidingMembers(b, ar, ac, side, gen, m);
    i :| 0 <= i < |gen| && InRay(b, ar, ac, side, gen[i], m);
    assert m == Step(ar, ac, row, col);
  }

  /** A rook or queen move along one rook direction is seen back along the reverse direction. */
  lemma RookRayGivesAttack(b: Board, row: int, col: int, side: Color, ar: int, ac: int, kind: PieceKind, i: int)
    requires kind == Rook || kind == Queen
    requires Holds(b, ar, ac, side, kind) && EnemyAt(b, row, col, side) && 0 <= i < 4
    requires IsDirection(RookDirections[i].0, RookDirections[i].1)
    requires InRay(b, ar, ac, side, RookDirections[i], Step(ar, ac, row, col))
    ensures RayAttack(b, row, col, RookDirections, side, {Rook, Queen})
  {
    DirectionLists();
    RookReversed(i);
    var j := Flip(i);
    SliderDual(b, ar, ac, row, col, RookDirections[i], RookDirections[j], side);
    assert RayAttacker(b, row, col, RookDirections[j], side, {Rook, Queen});
  }

  /** A bishop or queen move along one diagonal is seen back along the reverse diagonal. */
  lemma BishopRayGivesAttack(b: Board, row: int, col: int, side: Color, ar: int, ac: int, kind: PieceKind, i: int)
    requires kind == Bishop || kind == Queen
    requires Holds(b, ar, ac, side, kind) && EnemyAt(b, row, col, side) && 0 <= i < 4
    requires IsDirection(BishopDirections[i].0, BishopDirections[i].1)
    requires InRay(b, ar, ac, side, BishopDirections[i], Step(ar, ac, row, col))
    ensures RayAttack(b, row, col, BishopDirections, side, {Bishop, Queen})
  {
    DirectionLists();
    BishopReversed(i);
    var j := 3 - i;
    SliderDual(b, ar, ac, row, col, BishopDirections[i], BishopDirections[j], side);
    assert RayAttacker(b, row, col, BishopDirections[j], side, {Bishop, Queen});
  }

  lemma RookMoveGivesAttack(b: Board, row: int, col: int, side: Color, ar: int, ac: int, kind: PieceKind, m: Move)
    requires kind == Rook || kind == Queen
    requires Holds(b, ar, ac, side, kind) && EnemyAt(b, row, col, side) && AllDirections(RookDirections)
    requires m in SlidingMoves(b, ar, ac, side, RookDirections) && m.toRow == row && m.toCol == col
    ensures RayAttack(b, row, col, RookDirections, side, {Rook, Queen})
  {
    var i := SliderMoveDirection(b, row, col, side, ar, ac, RookDirections, m);
    RookRayGivesAttack(b, row, col, side, ar, ac, kind, i);
  }

  lemma BishopMoveGivesAttack(b: Board, row: int, col: int, side: Color, ar: int, ac: int, kind: PieceKind, m: Move)
    requires kind == Bishop || kind == Queen
    requires Holds(b, ar, ac, side, kind) && EnemyAt(b, row, col, side) && AllDirections(BishopDirections)
    requires m in SlidingMoves(b, ar, ac, side, BishopDirections) && m.toRow == row && m.toCol == col
    ensures RayAttack(b, row, col, BishopDirections, side, {Bishop, Queen})
  {
    var i := SliderMoveDirection(b, row, col, side, ar, ac, BishopDirections, m);
    BishopRayGivesAttack(b, row, col, side, ar, ac, kind, i);
  }

  lemma QueenMoveGivesAttack(b: Board, row: int, col: int, side: Color, ar: int, ac: int, m: Move)
    requires Holds(b, ar, ac, side, Queen) && EnemyAt(b, row, col, side)
    requires m in SlidingMoves(b, ar, ac, side, QueenDirections) && m.toRow == row && m.toCol == col
    ensures IsSquareAttacked(b, row, col, side)
  {
    DirectionLists();
    var i := SliderMoveDirection(b, row, col, side, ar, ac, QueenDirections, m);
    if i < 4 {
      BishopRayGivesAttack(b, row, col, side, ar, ac, Queen, i);
    } else {
      RookRayGivesAttack(b, row, col, side, ar, ac, Queen, i - 4);
    }
  }

  lemma MoveGivesAttack(b: Board, row: int, col: int, side: Color, m: Move)
    requires EnemyAt(b, row, col, side)
    requires m in PseudoLegalMoves(b, side) && m.toRow == row && m.toCol == col
    ensures IsSquareAttacked(b, row, col, side)
  {
    DirectionLists();
    var ar, ac :| InBounds(ar, ac) && Get(b, ar, ac).Some? && Get(b, ar, ac).value.color == side
      && m in PieceMoves(b, ar, ac);
    PieceMovesByKind(b, ar, ac);
    match Get(b, ar, ac).value.kind
    case Pawn =>
      PawnMoveGivesAttack(b, row, col, side, ar, ac, m);
    case Knight =>
      OffsetMoveGivesAttack(b, row, col, side, ar, ac, Knight, m);
    case King =>
      if m in CastlingMoves(b, ar, ac, side) {
        CastlingLandsEmpty(b, ar, ac, side, m);
      } else {
        OffsetMoveGivesAttack(b, row, col, side, ar, ac, King, m);
      }
    case Rook =>
      RookMoveGivesAttack(b, row, col, side, ar, ac, Rook, m);
    case Bishop =>
      BishopMoveGivesAttack(b, row, col, side, ar, ac, Bishop, m);
    case Queen =>
      QueenMoveGivesAttack(b, row, col, side, ar, ac, m);
  }

  /** A square held by the other side is attacked by `side` exactly when some
      pseudo-legal move of `side` lands on it. */
  lemma AttackedIffCapturable(b: Board, row: int, col: int, side: Color)
    requires EnemyAt(b, row, col, side)
    ensures IsSquareAttacked(b, row, col, side) <==> Capturable(b, row, col, side)
  {
    if IsSquareAttacked(b, row, col, side) {
      AttackGivesCapture(b, row, col, side);
    }
    if Capturable(b, row, col, side) {
      var m :| m in PseudoLegalMoves(b, side) && m.toRow == row && m.toCol == col;
      MoveGivesAttack(b, row, col, side, m);
    }
  }

  /** A colour with a king is in check exactly when some pseudo-legal move of
      the other side lands on its first king. */
  lemma CheckIffKingCapturable(b: Board, color: Color)
    requires LocateKing(b, color).Some?
    ensures var k := LocateKing(b, color).value;
      IsInCheck(b, color) <==> Capturable(b, k.0, k.1, Opposite(color))
  {
    var k := LocateKing(b, color).value;
    AttackedIffCapturable(b, k.0, k.1, Opposite(color));
  }

  /** A colour is in check exactly when it has a king and some pseudo-legal
      move of the other side lands on its first king. */
  lemma CheckReading(b: Board, color: Color)
    ensures var k := LocateKing(b, color);
      IsInCheck(b, color) <==> k.Some? && Capturable(b, k.value.0, k.value.1, Opposite(color))
  {
    if LocateKing(b, color).Some? {
      CheckIffKingCapturable(b, color);
    }
  }

  // ---------------------------------------------------------------------------
  // The pawn test as the program writes it

  /** When all of `side`'s pieces are pawns, only the pawn test can find an attack. */
  lemma PawnsOnly(b: Board, row: int, col: int, side: Color)
    requires forall r, c :: InBounds(r, c) && Get(b, r, c).Some? && Get(b, r, c).value.color == side ==>
      Get(b, r, c).value.kind == Pawn
    ensures !PieceAttacks(b, row, col, side)
  {
    DirectionLists();
  }

  /** White pawn on (6, 4) and a Black knight diagonally in front of it on (5, 3). */
  function PawnAttackPosition(): Board {
    Set(Set(EmptyBoard(), 6, 4, Some(NewPiece(White, Pawn))), 5, 3, Some(NewPiece(Black, Knight)))
  }

  /** The pawn on (6, 4) can capture the knight on (5, 3), and the corrected
      test sees the attack, but the program's test looks at (4, 2) and (4, 4)
      and reports the knight's square as safe. */
  lemma PawnAttackAsWrittenMisses()
    ensures var b := PawnAttackPosition();
      && Capturable(b, 5, 3, White)
      && IsSquareAttacked(b, 5, 3, White)
      && !IsSquareAttackedAsWritten(b, 5, 3, White)
  {
    var b := PawnAttackPosition();
    assert Get(b, 6, 4) == Some(NewPiece(White, Pawn));
    assert Get(b, 5, 3) == Some(NewPiece(Black, Knight));
    assert forall r, c :: InBounds(r, c) && (r, c) != (6, 4) && (r, c) != (5, 3) ==> Get(b, r, c).None?;
    PawnsOnly(b, 5, 3, White);
    assert PawnAttacks(b, 5, 3, White);
    AttackedIffCapturable(b, 5, 3, White);
  }

  /** White king on its home square (7, 4) and a Black pawn on (6, 3),
      diagonally in front of it. */
  function PawnCheckPosition(): Board {
    Set(Set(EmptyBoard(), 7, 4, Some(NewPiece(White, King))), 6, 3, Some(NewPiece(Black, Pawn)))
  }

  /** The Black pawn on (6, 3) gives check to the king on (7, 4), and the
      corrected test reports it, but the program's `is_in_check` looks for
      Black pawns at (8, 3) and (8, 5), off the board, and reports no check. */
  lemma CheckAsWrittenMissesPawn()
    ensures var b := PawnCheckPosition();
      && LocateKing(b, White) == Some((7, 4))
      && IsInCheck(b, White)
      && !IsInCheckAsWritten(b, White)
  {
    var b := PawnCheckPosition();
    assert Get(b, 7, 4) == Some(NewPiece(White, King));
    assert Get(b, 6, 3) == Some(NewPiece(Black, Pawn));
    assert forall r, c :: InBounds(r, c) && (r, c) != (7, 4) && (r, c) != (6, 3) ==> Get(b, r, c).None?;
    assert Holds(b, 7, 4, White, King);
    var k := LocateKing(b, White).value;
    assert Holds(b, k.0, k.1, White, King);
    assert k == (7, 4);
    PawnsOnly(b, 7, 4, Black);
    assert PawnAttacks(b, 7, 4, Black);
  }
}
