/** Playing a move on a board (chess_game/game_logic.py, `make_move`): the
    piece moves, a captured piece leaves the board, the castling rook jumps
    over the king, a pawn on the last row is promoted, and the rights, the
    en-passant target, the clocks and the side to move are brought up to
    date. Boards are values here, so the function returns the new board with
    the captured piece instead of changing its argument. */
module Apply {
  import opened Common
  import opened Notation
  import opened Pieces
  import opened Chessboard
  import opened Attacks
  import opened MoveGen
  import opened AttackMap

  /** The board after the move and the piece the move captured, if any. */
  datatype MoveResult = MoveResult(board: Board, captured: Square)

  /** Both squares of the move are on the board. */
  predicate OnBoard(m: Move) {
    InBounds(m.fromRow, m.fromCol) && InBounds(m.toRow, m.toCol)
  }

  /** The rook's columns for a castling move onto column `toCol`: from the
      corner to the square the king crosses. */
  function CastlingRookCols(toCol: int): (cols: (int, int))
    ensures cols == (7, 5) || cols == (0, 3)
    ensures cols.0 == 7 <==> toCol == 6
  {
    if toCol == 6 then (7, 5) else (0, 3)
  }

  /** Both rights of `color` are withdrawn. */
  function RevokeBoth(rights: Rights, color: Color): (r: Rights)
    ensures !KingSideRight(r, color) && !QueenSideRight(r, color)
    ensures KingSideRight(r, Opposite(color)) == KingSideRight(rights, Opposite(color))
    ensures QueenSideRight(r, Opposite(color)) == QueenSideRight(rights, Opposite(color))
  {
    if color == White then rights.(whiteKing := false, whiteQueen := false)
    else rights.(blackKing := false, blackQueen := false)
  }

  /** The right belonging to the rook that starts on corner (row, col) is
      withdrawn; any other square leaves the rights alone. */
  function RevokeCorner(rights: Rights, row: int, col: int): (r: Rights)
    ensures r.whiteQueen == (rights.whiteQueen && !(row == 7 && col == 0))
    ensures r.whiteKing == (rights.whiteKing && !(row == 7 && col == 7))
    ensures r.blackQueen == (rights.blackQueen && !(row == 0 && col == 0))
    ensures r.blackKing == (rights.blackKing && !(row == 0 && col == 7))
  {
    if row == 7 && col == 0 then rights.(whiteQueen := false)
    else if row == 7 && col == 7 then rights.(whiteKing := false)
    else if row == 0 && col == 0 then rights.(blackQueen := false)
    else if row == 0 && col == 7 then rights.(blackKing := false)
    else rights
  }

  /** The rights after `piece` played `m` and took `captured`: a king move
      gives up both of its colour's rights, a rook leaving a corner gives up
      that corner's right, and a rook taken on a corner takes that right with it. */
  function UpdatedRights(rights: Rights, piece: Piece, m: Move, captured: Square): Rights {
    var afterKing := if piece.kind == King then RevokeBoth(rights, piece.color) else rights;
    var afterRook := if piece.kind == Rook then RevokeCorner(afterKing, m.fromRow, m.fromCol) else afterKing;
    if captured.Some? && captured.value.kind == Rook then RevokeCorner(afterRook, m.toRow, m.toCol) else afterRook
  }

  /** The en-passant target a move leaves behind: the square a pawn's double
      step passes over, or none. */
  function NextEnPassant(piece: Piece, m: Move): Option<(Coord, Coord)>
    requires OnBoard(m)
  {
    if piece.kind == Pawn && Abs(m.toRow - m.fromRow) == 2 then Some(((m.toRow + m.fromRow) / 2, m.fromCol))
    else None
  }

  /** What stands on the destination afterwards: a new piece of the promotion
      kind for a promoting pawn, otherwise the mover marked as moved. */
  function Arriving(piece: Piece, m: Move): (p: Piece)
    ensures p.color == piece.color && p.hasMoved
    ensures p.kind == (if m.promotion.Some? && piece.kind == Pawn then m.promotion.value else piece.kind)
  {
    if m.promotion.Some? && piece.kind == Pawn then Piece(piece.color, m.promotion.value, true)
    else piece.(hasMoved := true)
  }

  /** The castling rook's jump when `m` is a castling move of a king. */
  function MoveRook(b: Board, piece: Piece, m: Move): Board
    requires OnBoard(m)
  {
    if m.isCastling && piece.kind == King then
      var cols := CastlingRookCols(m.toCol);
      var rook := Get(b, m.fromRow, cols.0);
      var moved := if rook.Some? then Some(rook.value.(hasMoved := true)) else None;
      Set(Set(b, m.fromRow, cols.0, None), m.fromRow, cols.1, moved)
    else b
  }

  /** `make_move` with the row of the pawn an en-passant capture removes
      given as `victimRow`; the column is always the destination's. */
  function MakeMoveWith(b: Board, m: Move, victimRow: int): MoveResult
    requires OnBoard(m)
    requires m.isEnPassant ==> InBounds(victimRow, m.toCol)
  {
    match Get(b, m.fromRow, m.fromCol)
    case None => MoveResult(b, None)
    case Some(piece) =>
      var captured := if m.isEnPassant then Get(b, victimRow, m.toCol) else Get(b, m.toRow, m.toCol);
      var cleared := if m.isEnPassant then Set(b, victimRow, m.toCol, None) else b;
      var castled := MoveRook(cleared, piece, m);
      var placed := Set(Set(castled, m.fromRow, m.fromCol, None), m.toRow, m.toCol, Some(Arriving(piece, m)));
      var after := placed.(
        rights := UpdatedRights(b.rights, piece, m, captured),
        enPassant := NextEnPassant(piece, m),
        halfmove := if piece.kind == Pawn || captured.Some? then 0 else b.halfmove + 1,
        fullmove := if b.current == Black then b.fullmove + 1 else b.fullmove,
        current := Opposite(b.current));
      MoveResult(after, captured)
  }

  /** `make_move`, with the pawn taken en passant removed from beside the
      capturing pawn: on its starting row, in the destination column. */
  function MakeMove(b: Board, m: Move): (r: MoveResult)
    requires OnBoard(m)
    ensures Get(b, m.fromRow, m.fromCol).None? ==> r.board == b && r.captured.None?
    ensures Get(b, m.fromRow, m.fromCol).Some? ==>
      var piece := Get(b, m.fromRow, m.fromCol).value;
      && r.board.current == Opposite(b.current)
      && r.board.fullmove == b.fullmove + (if b.current == Black then 1 else 0)
      && r.board.halfmove == (if piece.kind == Pawn || r.captured.Some? then 0 else b.halfmove + 1)
      && r.captured == (if m.isEnPassant then Get(b, m.fromRow, m.toCol) else Get(b, m.toRow, m.toCol))
      && Get(r.board, m.toRow, m.toCol) == Some(Arriving(piece, m))
      && ((m.fromRow, m.fromCol) != (m.toRow, m.toCol) ==> Get(r.board, m.fromRow, m.fromCol).None?)
  {
    MakeMoveWith(b, m, m.fromRow)
  }

  /** `make_move` as the program writes it: the en-passant victim is looked
      for one row beyond the destination, in the mover's direction of travel. */
  function MakeMoveAsWritten(b: Board, m: Move): (r: MoveResult)
    requires OnBoard(m)
    requires m.isEnPassant && Get(b, m.fromRow, m.fromCol).Some? ==>
      InBounds(m.toRow + Forward(Get(b, m.fromRow, m.fromCol).value.color), m.toCol)
    ensures !m.isEnPassant ==> r == MakeMove(b, m)
  {
    match Get(b, m.fromRow, m.fromCol)
    case None => MoveResult(b, None)
    case Some(piece) => MakeMoveWith(b, m, m.toRow + Forward(piece.color))
  }

  // ---------------------------------------------------------------------------
  // What a move changes

  /** The squares a move may change: its own two, the square of the pawn
      taken en passant, and the castling rook's two. */
  predicate Touched(b: Board, m: Move, row: int, col: int) {
    || (row == m.fromRow && col == m.fromCol)
    || (row == m.toRow && col == m.toCol)
    || (m.isEnPassant && row == m.fromRow && col == m.toCol)
    || (m.isCastling && row == m.fromRow && (col == CastlingRookCols(m.toCol).0 || col == CastlingRookCols(m.toCol).1))
  }

  /** Every square the move does not touch keeps its piece. */
  lemma MakeMoveFrame(b: Board, m: Move, row: int, col: int)
    requires OnBoard(m) && InBounds(row, col) && !Touched(b, m, row, col)
    ensures Get(MakeMove(b, m).board, row, col) == Get(b, row, col)
  {
  }

  /** A move only ever withdraws castling rights. */
  lemma RightsOnlyWithdrawn(b: Board, m: Move)
    requires OnBoard(m)
    ensures var r := MakeMove(b, m).board.rights;
      && (r.whiteKing ==> b.rights.whiteKing) && (r.whiteQueen ==> b.rights.whiteQueen)
      && (r.blackKing ==> b.rights.blackKing) && (r.blackQueen ==> b.rights.blackQueen)
  {
  }

  /** A rook of `piece`'s move leaves the corner (row, col), or a rook is
      taken there. */
  predicate CornerVacated(piece: Piece, m: Move, captured: Square, row: int, col: int) {
    || (piece.kind == Rook && m.fromRow == row && m.fromCol == col)
    || (captured.Some? && captured.value.kind == Rook && m.toRow == row && m.toCol == col)
  }

  /** Each right survives a move exactly when it was held, the move is not
      its colour's king's, and no rook leaves or is taken on its corner. */
  lemma RightsWithdrawnBy(b: Board, m: Move)
    requires OnBoard(m) && Get(b, m.fromRow, m.fromCol).Some?
    ensures var piece := Get(b, m.fromRow, m.fromCol).value;
      var r := MakeMove(b, m);
      var rights := r.board.rights;
      && rights.whiteKing == (b.rights.whiteKing && !(piece.kind == King && piece.color == White)
                              && !CornerVacated(piece, m, r.captured, 7, 7))
      && rights.whiteQueen == (b.rights.whiteQueen && !(piece.kind == King && piece.color == White)
                               && !CornerVacated(piece, m, r.captured, 7, 0))
      && rights.blackKing == (b.rights.blackKing && !(piece.kind == King && piece.color == Black)
                              && !CornerVacated(piece, m, r.captured, 0, 7))
      && rights.blackQueen == (b.rights.blackQueen && !(piece.kind == King && piece.color == Black)
                               && !CornerVacated(piece, m, r.captured, 0, 0))
  {
    var piece := Get(b, m.fromRow, m.fromCol).value;
    var r := MakeMove(b, m);
    assert r.board.rights == UpdatedRights(b.rights, piece, m, r.captured);
    UpdatedRightsExact(b.rights, piece, m, r.captured);
  }

  lemma UpdatedRightsExact(rights: Rights, piece: Piece, m: Move, captured: Square)
    ensures var u := UpdatedRights(rights, piece, m, captured);
      && u.whiteKing == (rights.whiteKing && !(piece.kind == King && piece.color == White)
                         && !CornerVacated(piece, m, captured, 7, 7))
      && u.whiteQueen == (rights.whiteQueen && !(piece.kind == King && piece.color == White)
                          && !CornerVacated(piece, m, captured, 7, 0))
      && u.blackKing == (rights.blackKing && !(piece.kind == King && piece.color == Black)
                         && !CornerVacated(piece, m, captured, 0, 7))
      && u.blackQueen == (rights.blackQueen && !(piece.kind == King && piece.color == Black)
                          && !CornerVacated(piece, m, captured, 0, 0))
  {
  }

  /** A pawn's double step leaves the square it passed over as the en-passant
      target; every other move clears the target. */
  lemma EnPassantAfter(b: Board, m: Move)
    requires OnBoard(m) && Get(b, m.fromRow, m.fromCol).Some?
    ensures var piece := Get(b, m.fromRow, m.fromCol).value;
      var ep := MakeMove(b, m).board.enPassant;
      && (ep.Some? <==> piece.kind == Pawn && (m.toRow == m.fromRow + 2 || m.toRow == m.fromRow - 2))
      && (ep.Some? ==> ep.value.1 == m.fromCol && ep.value.0 - m.fromRow == m.toRow - ep.value.0)
  {
  }

  /** Castling a king from column 4 to column 6 or 2 puts the rook on the
      square the king crossed and empties the corner. */
  lemma CastlingMovesRook(b: Board, m: Move)
    requires OnBoard(m) && m.isCastling && !m.isEnPassant && m.fromCol == 4 && m.toRow == m.fromRow
    requires m.toCol == 6 || m.toCol == 2
    requires Get(b, m.fromRow, m.fromCol).Some? && Get(b, m.fromRow, m.fromCol).value.kind == King
    ensures var after := MakeMove(b, m).board;
      var corner := if m.toCol == 6 then 7 else 0;
      var crossed := if m.toCol == 6 then 5 else 3;
      && Get(after, m.fromRow, corner).None?
      && Get(after, m.fromRow, crossed).Some? == Get(b, m.fromRow, corner).Some?
      && (Get(b, m.fromRow, corner).Some? ==>
            Get(after, m.fromRow, crossed) == Some(Get(b, m.fromRow, corner).value.(hasMoved := true)))
      && Get(after, m.fromRow, m.toCol) == Some(Get(b, m.fromRow, m.fromCol).value.(hasMoved := true))
      && Get(after, m.fromRow, 4).None?
  {
  }

  /** After a pawn's double step, an en-passant capture generated for the
      other side takes exactly that pawn off the square it arrived on. */
  lemma EnPassantTakesDoubleStepper(b: Board, m1: Move, row: int, col: int, m2: Move)
    requires OnBoard(m1) && Get(b, m1.fromRow, m1.fromCol).Some? && Get(b, m1.fromRow, m1.fromCol).value.kind == Pawn
    requires m1 in PawnMoves(b, m1.fromRow, m1.fromCol) && Abs(m1.toRow - m1.fromRow) == 2
    requires var a := MakeMove(b, m1).board;
      && InBounds(row, col) && Get(a, row, col).Some?
      && Get(a, row, col).value.color == Opposite(Get(b, m1.fromRow, m1.fromCol).value.color)
      && m2 in PawnMoves(a, row, col) && m2.isEnPassant
    ensures OnBoard(m2)
    ensures var a := MakeMove(b, m1).board;
      && MakeMove(a, m2).captured == Some(Arriving(Get(b, m1.fromRow, m1.fromCol).value, m1))
      && Get(MakeMove(a, m2).board, m1.toRow, m1.toCol).None?
  {
    var pawn := Get(b, m1.fromRow, m1.fromCol).value;
    var a := MakeMove(b, m1).board;
    assert PawnMoveShape(b, m1.fromRow, m1.fromCol, pawn.color, m1);
    assert m1.toCol == m1.fromCol && m1.toRow == m1.fromRow + 2 * Forward(pawn.color);
    EnPassantAfter(b, m1);
    assert PawnMoveShape(a, row, col, Opposite(pawn.color), m2);
    assert row == m1.toRow && m2.toCol == m1.toCol;
    assert (row, col) != (m2.toRow, m2.toCol);
  }

  // ---------------------------------------------------------------------------
  // A generated move never captures its own side's piece

  /** Every square a generated move lands on, en passant aside, is empty or
      held by the other side. */
  lemma GeneratedLandsEnterable(b: Board, side: Color, m: Move)
    requires m in PseudoLegalMoves(b, side) && !m.isEnPassant
    ensures Enterable(b, m.toRow, m.toCol, side)
  {
    var ar, ac :| InBounds(ar, ac) && Get(b, ar, ac).Some? && Get(b, ar, ac).value.color == side
      && m in PieceMoves(b, ar, ac);
    PieceLandsEnterable(b, ar, ac, m);
  }

  lemma PieceLandsEnterable(b: Board, ar: int, ac: int, m: Move)
    requires InBounds(ar, ac) && Get(b, ar, ac).Some? && m in PieceMoves(b, ar, ac) && !m.isEnPassant
    ensures Enterable(b, m.toRow, m.toCol, Get(b, ar, ac).value.color)
  {
    var side := Get(b, ar, ac).value.color;
    PieceMovesByKind(b, ar, ac);
    match Get(b, ar, ac).value.kind
    case Pawn =>
      PawnLandsEnterable(b, ar, ac, m);
    case Knight =>
      OffsetLandsEnterable(b, ar, ac, side, KnightOffsets, m);
    case King =>
      if m in CastlingMoves(b, ar, ac, side) {
        CastlingLandsEmpty(b, ar, ac, side, m);
      } else {
        OffsetLandsEnterable(b, ar, ac, side, KingOffsets, m);
      }
    case Rook =>
      SlidingLandsEnterable(b, ar, ac, side, RookDirections, m);
    case Bishop =>
      SlidingLandsEnterable(b, ar, ac, side, BishopDirections, m);
    case Queen =>
      DirectionLists();
      SlidingLandsEnterable(b, ar, ac, side, QueenDirections, m);
  }

  lemma PawnLandsEnterable(b: Board, ar: int, ac: int, m: Move)
    requires InBounds(ar, ac) && Get(b, ar, ac).Some? && Get(b, ar, ac).value.kind == Pawn
    requires m in PawnMoves(b, ar, ac) && !m.isEnPassant
    ensures Enterable(b, m.toRow, m.toCol, Get(b, ar, ac).value.color)
  {
    var color := Get(b, ar, ac).value.color;
    var pushes := PawnPushes(b, ar, ac, color);
    var left := PawnCapture(b, ar, ac, color, -1);
    var right := PawnCapture(b, ar, ac, color, 1);
    var ep := PawnEnPassant(b, ar, ac, color);
    assert PawnMoves(b, ar, ac) == pushes + left + right + ep;
    if m in left {
      assert |left| > 0;
    } else if m in right {
      assert |right| > 0;
    }
  }

  lemma OffsetLandsEnterable(b: Board, ar: int, ac: int, side: Color, offsets: seq<(int, int)>, m: Move)
    requires m in OffsetMoves(b, ar, ac, side, offsets)
    ensures Enterable(b, m.toRow, m.toCol, side)
  {
    assert OffsetStep(b, ar, ac, side, offsets, m);
  }

  lemma SlidingLandsEnterable(b: Board, ar: int, ac: int, side: Color, dirs: seq<(int, int)>, m: Move)
    requires AllDirections(dirs) && m in SlidingMoves(b, ar, ac, side, dirs)
    ensures Enterable(b, m.toRow, m.toCol, side)
  {
    SlidingMembers(b, ar, ac, side, dirs, m);
    var i :| 0 <= i < |dirs| && InRay(b, ar, ac, side, dirs[i], m);
    RayLandsEnterable(b, ar, ac, side, dirs[i], m);
  }

  lemma RayLandsEnterable(b: Board, ar: int, ac: int, side: Color, d: (int, int), m: Move)
    requires IsDirection(d.0, d.1) && InRay(b, ar, ac, side, d, m)
    ensures Enterable(b, m.toRow, m.toCol, side)
  {
    var k := RayMovesSteps(b, ar, ac, ar + d.0, ac + d.1, d.0, d.1, side, m);
    RayMovesWalk(b, ar, ac, ar + d.0, ac + d.1, d.0, d.1, side, k);
  }

  /** A generated move other than en passant captures nothing of its own side. */
  lemma CaptureIsOpponent(b: Board, side: Color, m: Move)
    requires m in PseudoLegalMoves(b, side) && !m.isEnPassant
    ensures OnBoard(m)
    ensures var r := MakeMove(b, m); r.captured.None? || r.captured.value.color != side
  {
    GeneratedLandsEnterable(b, side, m);
  }

  // ---------------------------------------------------------------------------
  // The en-passant victim as the program writes it

  /** White pawn on (3, 4), the Black pawn that has just double-stepped on
      (3, 3), and the square it passed over, (2, 3), as the en-passant target. */
  function EnPassantPosition(): Board {
    var b := EmptyBoard().(enPassant := Some((2, 3)));
    Set(Set(b, 3, 4, Some(Piece(White, Pawn, true))), 3, 3, Some(Piece(Black, Pawn, true)))
  }

  /** The generator offers White's en-passant capture (3, 4) to (2, 3); the
      program as written then looks for the victim on (1, 3), captures
      nothing and leaves the Black pawn standing, where the corrected move
      takes it off (3, 3). */
  lemma EnPassantAsWrittenMissesVictim()
    ensures var b := EnPassantPosition();
      var m := Move(3, 4, 2, 3, None, false, true);
      && m in PseudoLegalMoves(b, White)
      && MakeMoveAsWritten(b, m).captured.None?
      && Get(MakeMoveAsWritten(b, m).board, 3, 3) == Some(Piece(Black, Pawn, true))
      && MakeMove(b, m).captured == Some(Piece(Black, Pawn, true))
      && Get(MakeMove(b, m).board, 3, 3).None?
  {
    var b := EnPassantPosition();
    var m := Move(3, 4, 2, 3, None, false, true);
    assert Get(b, 3, 4) == Some(Piece(White, Pawn, true));
    assert Get(b, 3, 3) == Some(Piece(Black, Pawn, true));
    assert Get(b, 1, 3).None?;
    assert PawnEnPassant(b, 3, 4, White) == [m];
    PieceMovesByKind(b, 3, 4);
    assert m in PawnMoves(b, 3, 4);
    Generated(b, 3, 4, White, m);
    MakeMoveFrame(b, m, 1, 3);
  }
}
