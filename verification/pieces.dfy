/** Pieces and their material values (chess_game/pieces.py). */
module Pieces {
  import opened Common
  import opened Notation

  /** A piece: its colour, its kind and whether it has moved yet. */
  datatype Piece = Piece(color: Color, kind: PieceKind, hasMoved: bool)

  /** A piece as the program creates it: not yet moved. */
  function NewPiece(color: Color, kind: PieceKind): (p: Piece)
    ensures p.color == color && p.kind == kind
    ensures !p.hasMoved
  {
    Piece(color, kind, false)
  }

  /** `piece_values`, in centipawns. The king's value is a sentinel. */
  function PieceValue(k: PieceKind): (v: int)
    ensures 100 <= v <= 20000
  {
    match k
    case Pawn => 100
    case Knight => 320
    case Bishop => 330
    case Rook => 500
    case Queen => 900
    case King => 20000
  }

  lemma ValuesIncrease()
    ensures 0 < PieceValue(Pawn) < PieceValue(Knight) < PieceValue(Bishop)
    ensures PieceValue(Bishop) < PieceValue(Rook) < PieceValue(Queen) < PieceValue(King)
  {
  }

  /** `Piece.letter`: the kind letter, upper case for White and lower case
      for Black. */
  function Letter(p: Piece): (ch: char)
    ensures p.color == White ==> ch == KindLetter(p.kind)
    ensures p.color == Black ==> ch as int == KindLetter(p.kind) as int + 32
    ensures 'A' <= ch <= 'Z' || 'a' <= ch <= 'z'
  {
    var text := KindLetter(p.kind);
    if p.color == Black then ToLower(text) else text
  }

  /** The letter names the colour and the kind and nothing else. */
  lemma LetterInjective(p: Piece, q: Piece)
    ensures Letter(p) == Letter(q) <==> p.color == q.color && p.kind == q.kind
  {
    if Letter(p) == Letter(q) {
      assert p.color == q.color;
      KindLetterInjective(p.kind, q.kind);
    }
  }
}
