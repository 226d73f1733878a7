/** The board value (chess_game/board.py): an 8x8 grid of optional pieces, the
    side to move, four castling rights, an optional en-passant target and the
    two move clocks; its FEN-style text and its repetition key. */
module Chessboard {
  import opened Common
  import opened Notation
  import opened Pieces

  type Coord = x: int | 0 <= x < 8

  type Square = Option<Piece>

  /** Eight rows of eight squares: (row, col) is `grid[row][col]`. */
  type Grid = g: seq<seq<Square>> | |g| == 8 && forall row :: 0 <= row < 8 ==> |g[row]| == 8 witness EmptyGrid()

  function EmptyGrid(): (g: seq<seq<Square>>)
    ensures |g| == 8 && forall row :: 0 <= row < 8 ==> |g[row]| == 8 && forall col :: 0 <= col < 8 ==> g[row][col].None?
  {
    seq(8, row => seq(8, col => None))
  }

  /** Castling rights: king side and queen side, per colour. */
  datatype Rights = Rights(whiteKing: bool, whiteQueen: bool, blackKing: bool, blackQueen: bool)

  datatype Board = Board(
    grid: Grid,
    current: Color,
    rights: Rights,
    enPassant: Option<(Coord, Coord)>,
    halfmove: nat,
    fullmove: nat)

  /** `in_bounds`. */
  predicate InBounds(row: int, col: int) {
    0 <= row < 8 && 0 <= col < 8
  }

  /** `Board.get_piece`. */
  function Get(b: Board, row: int, col: int): Square
    requires InBounds(row, col)
  {
    b.grid[row][col]
  }

  /** Row-major numbering of the squares. */
  lemma SquareIndex(row: int, col: int)
    requires InBounds(row, col)
    ensures 0 <= row * 8 + col < 64 && (row * 8 + col) / 8 == row && (row * 8 + col) % 8 == col
  {
  }

  /** `Board.set_piece`: the one square changes, nothing else does. */
  function Set(b: Board, row: int, col: int, p: Square): (r: Board)
    requires InBounds(row, col)
    ensures Get(r, row, col) == p
    ensures forall rr, cc :: InBounds(rr, cc) && (rr != row || cc != col) ==> Get(r, rr, cc) == Get(b, rr, cc)
    ensures r.current == b.current && r.rights == b.rights && r.enPassant == b.enPassant
    ensures r.halfmove == b.halfmove && r.fullmove == b.fullmove
  {
    b.(grid := b.grid[row := b.grid[row][col := p]])
  }

  /** `Board()`: empty grid, White to move, every right held, no en-passant
      target, clocks at 0 and 1. */
  function EmptyBoard(): (b: Board)
    ensures forall row, col :: InBounds(row, col) ==> Get(b, row, col).None?
    ensures b.current == White
    ensures b.rights == Rights(true, true, true, true)
    ensures b.enPassant.None? && b.halfmove == 0 && b.fullmove == 1
  {
    Board(EmptyGrid(), White, Rights(true, true, true, true), None, 0, 1)
  }

  // ---------------------------------------------------------------------------
  // The starting position

  function BackRank(col: int): PieceKind
    requires 0 <= col < 8
  {
    [Rook, Knight, Bishop, Queen, King, Bishop, Knight, Rook][col]
  }

  /** What `setup_initial` leaves on one square. */
  function InitialSquare(row: int, col: int, prev: Square): Square
    requires 0 <= col < 8
  {
    if row == 0 then Some(NewPiece(Black, BackRank(col)))
    else if row == 1 then Some(NewPiece(Black, Pawn))
    else if row == 6 then Some(NewPiece(White, Pawn))
    else if row == 7 then Some(NewPiece(White, BackRank(col)))
    else prev
  }

  /** `setup_initial`: pawns on rows 1 and 6, the back ranks on rows 0 and 7,
      the middle rows and every other field untouched. */
  function SetupInitial(b: Board): (r: Board)
    ensures forall col :: 0 <= col < 8 ==>
      Get(r, 1, col) == Some(NewPiece(Black, Pawn)) && Get(r, 6, col) == Some(NewPiece(White, Pawn))
    ensures forall col :: 0 <= col < 8 ==>
      Get(r, 0, col) == Some(NewPiece(Black, BackRank(col))) && Get(r, 7, col) == Some(NewPiece(White, BackRank(col)))
    ensures forall row, col :: InBounds(row, col) && 2 <= row <= 5 ==> Get(r, row, col) == Get(b, row, col)
    ensures r.current == b.current && r.rights == b.rights && r.enPassant == b.enPassant
    ensures r.halfmove == b.halfmove && r.fullmove == b.fullmove
  {
    var g := seq(8, row requires 0 <= row < 8 =>
      seq(8, col requires 0 <= col < 8 => InitialSquare(row, col, b.grid[row][col])));
    b.(grid := g)
  }

  function InitialBoard(): Board {
    SetupInitial(EmptyBoard())
  }

  /** Number of occupied squares at index `i` and after. */
  function OccupiedFrom(g: Grid, i: nat): nat
    requires i <= 64
    decreases 64 - i
  {
    if i == 64 then 0 else (if g[i / 8][i % 8].Some? then 1 else 0) + OccupiedFrom(g, i + 1)
  }

  lemma {:induction false} InitialOccupiedFrom(i: nat)
    requires i <= 64
    ensures OccupiedFrom(InitialBoard().grid, i) ==
      (if i < 16 then 32 - i else if i < 48 then 16 else 64 - i)
    decreases 64 - i
  {
    var g := InitialBoard().grid;
    if i < 64 {
      InitialOccupiedFrom(i + 1);
      InitialSquareAt(i / 8, i % 8);
    }
  }

  lemma InitialSquareAt(row: int, col: int)
    requires InBounds(row, col)
    ensures Get(InitialBoard(), row, col) == InitialSquare(row, col, None)
  {
  }

  /** The starting position holds 32 pieces, on rows 0, 1, 6 and 7 only. */
  lemma InitialOccupancy()
    ensures OccupiedFrom(InitialBoard().grid, 0) == 32
    ensures forall row, col :: InBounds(row, col) ==>
      (Get(InitialBoard(), row, col).Some? <==> row == 0 || row == 1 || row == 6 || row == 7)
  {
    InitialOccupiedFrom(0);
    forall row, col | InBounds(row, col)
      ensures Get(InitialBoard(), row, col).Some? <==> row == 0 || row == 1 || row == 6 || row == 7
    {
      InitialSquareAt(row, col);
    }
  }

  /** The starting position has one king per colour: White's on (7, 4) and
      Black's on (0, 4); White moves first with every right held. */
  lemma InitialKings()
    ensures forall row, col :: InBounds(row, col) ==>
      (Get(InitialBoard(), row, col) == Some(NewPiece(White, King)) <==> row == 7 && col == 4)
    ensures forall row, col :: InBounds(row, col) ==>
      (Get(InitialBoard(), row, col) == Some(NewPiece(Black, King)) <==> row == 0 && col == 4)
    ensures InitialBoard().current == White && InitialBoard().rights == Rights(true, true, true, true)
  {
    forall row, col | InBounds(row, col)
      ensures Get(InitialBoard(), row, col) == Some(NewPiece(White, King)) <==> row == 7 && col == 4
      ensures Get(InitialBoard(), row, col) == Some(NewPiece(Black, King)) <==> row == 0 && col == 4
    {
      InitialSquareAt(row, col);
    }
  }

  // ---------------------------------------------------------------------------
  // FEN-style text (`to_fen`)

  /** The squares of one row, left to right. */
  function Row(b: Board, row: int): (r: seq<Square>)
    requires 0 <= row < 8
    ensures |r| == 8 && forall col :: 0 <= col < 8 ==> r[col] == Get(b, row, col)
  {
    b.grid[row]
  }

  /** The digit for a run of empty squares, if there is one. */
  function Flush(empty: nat): string {
    if empty > 0 then NatToString(empty) else ""
  }

  /** The rank field of `to_fen`, continuing a row with `empty` empty squares
      already counted. */
  function RankFenFrom(squares: seq<Square>, empty: nat): string
    decreases |squares|
  {
    if |squares| == 0 then Flush(empty)
    else if squares[0].None? then RankFenFrom(squares[1..], empty + 1)
    else Flush(empty) + [Letter(squares[0].value)] + RankFenFrom(squares[1..], 0)
  }

  function RankFen(squares: seq<Square>): string {
    RankFenFrom(squares, 0)
  }

  /** The piece-placement field: eight rank fields separated by '/'. */
  function Placement(b: Board): string {
    Join("/", seq(8, row requires 0 <= row < 8 => RankFen(Row(b, row))))
  }

  function ActiveField(c: Color): string {
    if c == White then "w" else "b"
  }

  /** The castling field: the held rights in the order K, Q, k, q, or "-". */
  function CastlingField(rights: Rights): string {
    var text := (if rights.whiteKing then "K" else "")
      + (if rights.whiteQueen then "Q" else "")
      + (if rights.blackKing then "k" else "")
      + (if rights.blackQueen then "q" else "");
    if text == "" then "-" else text
  }

  function EnPassantField(ep: Option<(Coord, Coord)>): string {
    match ep
    case None => "-"
    case Some(sq) => IndicesToSquare(sq.0, sq.1)
  }

  /** `Board.to_fen`: split at its spaces it gives back the six fields,
      placement, side to move, rights, en-passant target and the two clocks. */
  function ToFen(b: Board): (s: string)
    ensures SplitOn(s, ' ') == [Placement(b), ActiveField(b.current), CastlingField(b.rights),
      EnPassantField(b.enPassant), NatToString(b.halfmove), NatToString(b.fullmove)]
  {
    NoSpaceInFenPlacement(b);
    NoSpaceInCastling(b.rights);
    NoSpaceInEnPassant(b.enPassant);
    NoSpaceInNumber(b.halfmove);
    NoSpaceInNumber(b.fullmove);
    SixFieldsSplit(Placement(b), ActiveField(b.current), CastlingField(b.rights),
      EnPassantField(b.enPassant), NatToString(b.halfmove), NatToString(b.fullmove));
    Placement(b) + " " + ActiveField(b.current) + " " + CastlingField(b.rights) + " "
      + EnPassantField(b.enPassant) + " " + NatToString(b.halfmove) + " " + NatToString(b.fullmove)
  }

  /** What a rank field says of each square: a piece letter or nothing. */
  function ExpandRank(field: string): seq<Option<char>> {
    if |field| == 0 then []
    else if '1' <= field[0] <= '9' then
      seq(field[0] as int - '0' as int, _ => None) + ExpandRank(field[1..])
    else [Some(field[0])] + ExpandRank(field[1..])
  }

  function SquareLetter(sq: Square): Option<char> {
    if sq.None? then None else Some(Letter(sq.value))
  }

  function Letters(squares: seq<Square>): (r: seq<Option<char>>)
    ensures |r| == |squares|
  {
    if |squares| == 0 then [] else [SquareLetter(squares[0])] + Letters(squares[1..])
  }

  /** Letters names each square in place: its piece letter, or nothing. */
  lemma {:induction false} LettersAt(squares: seq<Square>)
    ensures forall i :: 0 <= i < |squares| ==> Letters(squares)[i] == SquareLetter(squares[i])
  {
    if |squares| > 0 {
      LettersAt(squares[1..]);
      assert forall i :: 1 <= i < |squares| ==> squares[1..][i - 1] == squares[i];
    }
  }

  /** Every digit of a rank field is 1..8 and is followed by a letter or the end. */
  predicate WellFormedRank(field: string) {
    forall i :: 0 <= i < |field| && IsDigit(field[i]) ==>
      '1' <= field[i] <= '8' && (i + 1 < |field| ==> !IsDigit(field[i + 1]))
  }

  lemma {:induction false} ExpandAppend(a: string, b: string)
    ensures ExpandRank(a + b) == ExpandRank(a) + ExpandRank(b)
  {
    if |a| > 0 {
      assert (a + b)[1..] == a[1..] + b;
      ExpandAppend(a[1..], b);
    } else {
      assert a + b == b;
    }
  }

  lemma ExpandFlush(empty: nat)
    requires empty <= 8
    ensures ExpandRank(Flush(empty)) == seq(empty, _ => None)
    ensures WellFormedRank(Flush(empty)) && |Flush(empty)| <= 1
  {
    if empty > 0 {
      assert Flush(empty) == [DigitChar(empty)];
      assert ExpandRank([DigitChar(empty)]) == seq(empty, _ => None) + ExpandRank([]);
    }
  }

  lemma {:induction false} RankFenExpands(squares: seq<Square>, empty: nat)
    requires |squares| + empty <= 8
    ensures ExpandRank(RankFenFrom(squares, empty)) == seq(empty, _ => None) + Letters(squares)
    decreases |squares|
  {
    if |squares| == 0 {
      ExpandFlush(empty);
    } else if squares[0].None? {
      RankFenExpands(squares[1..], empty + 1);
      assert seq(empty + 1, _ => None) + Letters(squares[1..])
          == seq(empty, _ => None) + Letters(squares);
    } else {
      var letter := Letter(squares[0].value);
      RankFenExpands(squares[1..], 0);
      assert seq(0, _ => None) + Letters(squares[1..]) == Letters(squares[1..]);
      PieceExpands(empty, letter, RankFenFrom(squares[1..], 0), Letters(squares[1..]));
    }
  }

  lemma FlushLetterExpands(empty: nat, letter: char)
    requires empty <= 8 && !('1' <= letter <= '9')
    ensures ExpandRank(Flush(empty) + [letter]) == seq(empty, _ => None) + [Some(letter)]
  {
    ExpandFlush(empty);
    ExpandAppend(Flush(empty), [letter]);
    assert ExpandRank([letter]) == [Some(letter)];
  }

  /** One step of RankFenExpands: a piece after `empty` empty squares. */
  lemma PieceExpands(empty: nat, letter: char, tail: string, rest: seq<Option<char>>)
    requires empty <= 8 && !('1' <= letter <= '9') && ExpandRank(tail) == rest
    ensures ExpandRank(Flush(empty) + [letter] + tail) == seq(empty, _ => None) + ([Some(letter)] + rest)
  {
    ExpandAppend(Flush(empty) + [letter], tail);
    FlushLetterExpands(empty, letter);
  }

  lemma {:induction false} RankFenWellFormed(squares: seq<Square>, empty: nat)
    requires |squares| + empty <= 8
    ensures WellFormedRank(RankFenFrom(squares, empty))
    ensures '/' !in RankFenFrom(squares, empty) && ' ' !in RankFenFrom(squares, empty)
    decreases |squares|
  {
    ExpandFlush(empty);
    if |squares| == 0 {
      assert RankFenFrom(squares, empty) == Flush(empty);
    } else if squares[0].None? {
      RankFenWellFormed(squares[1..], empty + 1);
    } else {
      var letter := Letter(squares[0].value);
      var tail := RankFenFrom(squares[1..], 0);
      RankFenWellFormed(squares[1..], 0);
      assert RankFenFrom(squares, empty) == Flush(empty) + [letter] + tail;
      WellFormedJoin(Flush(empty), letter, tail);
    }
  }

  /** The rank field says exactly which letter stands on each square, counts
      only 1..8 and never writes two counts side by side. */
  lemma RankFenRoundTrip(squares: seq<Square>, empty: nat)
    requires |squares| + empty <= 8
    ensures ExpandRank(RankFenFrom(squares, empty)) == seq(empty, _ => None) + Letters(squares)
    ensures WellFormedRank(RankFenFrom(squares, empty))
    ensures '/' !in RankFenFrom(squares, empty) && ' ' !in RankFenFrom(squares, empty)
  {
    RankFenExpands(squares, empty);
    RankFenWellFormed(squares, empty);
  }

  /** A count of at most one digit, a letter and a well-formed rest make a
      well-formed rank field. */
  lemma WellFormedJoin(flush: string, letter: char, tail: string)
    requires |flush| <= 1 && WellFormedRank(flush) && !IsDigit(letter) && WellFormedRank(tail)
    ensures WellFormedRank(flush + [letter] + tail)
  {
    var f := flush + [letter] + tail;
    forall i | 0 <= i < |f| && IsDigit(f[i])
      ensures '1' <= f[i] <= '8' && (i + 1 < |f| ==> !IsDigit(f[i + 1]))
    {
      if i < |flush| {
        assert f[i] == flush[i];
        assert f[i + 1] == letter;
      } else if i > |flush| {
        assert f[i] == tail[i - |flush| - 1];
        assert i + 1 < |f| ==> f[i + 1] == tail[i - |flush|];
      }
    }
  }

  /** The placement field splits on '/' into eight rank fields, each covering
      its row of eight squares letter by letter. */
  lemma PlacementRoundTrip(b: Board)
    ensures var fields := SplitOn(Placement(b), '/');
      && |fields| == 8
      && (forall row :: 0 <= row < 8 ==> WellFormedRank(fields[row]))
      && (forall row :: 0 <= row < 8 ==> ExpandRank(fields[row]) == Letters(Row(b, row)))
  {
    var fields := seq(8, row requires 0 <= row < 8 => RankFen(Row(b, row)));
    forall row | 0 <= row < 8
      ensures '/' !in fields[row] && WellFormedRank(fields[row])
      ensures ExpandRank(fields[row]) == Letters(Row(b, row))
    {
      RankFenRoundTrip(Row(b, row), 0);
      assert seq(0, _ => None) + Letters(Row(b, row)) == Letters(Row(b, row));
    }
    SplitJoin(fields, '/');
  }

  /** The castling field is "-" exactly when no right is held and otherwise
      names every held right and no other. */
  lemma CastlingFieldFaithful(rights: Rights)
    ensures var f := CastlingField(rights);
      && (f == "-" <==> !(rights.whiteKing || rights.whiteQueen || rights.blackKing || rights.blackQueen))
      && ('K' in f <==> rights.whiteKing) && ('Q' in f <==> rights.whiteQueen)
      && ('k' in f <==> rights.blackKing) && ('q' in f <==> rights.blackQueen)
  {
    var wk := if rights.whiteKing then "K" else "";
    var wq := if rights.whiteQueen then "Q" else "";
    var bk := if rights.blackKing then "k" else "";
    var bq := if rights.blackQueen then "q" else "";
    var text := wk + wq + bk + bq;
    assert '-' !in text;
    if text != "" {
      assert text[0] in text;
    }
  }

  /** Equal castling fields mean equal rights. */
  lemma CastlingFieldInjective(a: Rights, b: Rights)
    ensures CastlingField(a) == CastlingField(b) <==> a == b
  {
    CastlingFieldFaithful(a);
    CastlingFieldFaithful(b);
  }

  /** The en-passant field is "-" or the target written as a square. */
  lemma EnPassantFieldFaithful(ep: Option<(Coord, Coord)>)
    ensures ep.None? <==> EnPassantField(ep) == "-"
    ensures ep.Some? ==> SquareToIndices(EnPassantField(ep)) == Some((ep.value.0 as int, ep.value.1 as int))
  {
    if ep.Some? {
      SquareRoundTrip(ep.value.0, ep.value.1);
    }
  }

  // ---------------------------------------------------------------------------
  // The repetition key (`board_key`)

  function KeySquare(sq: Square): char {
    if sq.None? then '.' else Letter(sq.value)
  }

  function KeyRow(squares: seq<Square>): (r: string)
    ensures |r| == |squares| && forall i :: 0 <= i < |squares| ==> r[i] == KeySquare(squares[i])
  {
    if |squares| == 0 then "" else [KeySquare(squares[0])] + KeyRow(squares[1..])
  }

  function KeyPlacement(b: Board): string {
    Join("/", seq(8, row requires 0 <= row < 8 => KeyRow(Row(b, row))))
  }

  /** `Board.board_key`: the placement with '.' for empty squares, then the
      side to move, rights, en-passant target, half-move clock and full-move
      number. */
  function BoardKey(b: Board): (s: string)
    ensures SplitOn(s, ' ') == [KeyPlacement(b), ActiveField(b.current), CastlingField(b.rights),
      EnPassantField(b.enPassant), NatToString(b.halfmove), NatToString(b.fullmove)]
  {
    NoSpaceInPlacement(b);
    NoSpaceInCastling(b.rights);
    NoSpaceInEnPassant(b.enPassant);
    NoSpaceInNumber(b.halfmove);
    NoSpaceInNumber(b.fullmove);
    SixFieldsSplit(KeyPlacement(b), ActiveField(b.current), CastlingField(b.rights),
      EnPassantField(b.enPassant), NatToString(b.halfmove), NatToString(b.fullmove));
    KeyPlacement(b) + " " + ActiveField(b.current) + " " + CastlingField(b.rights) + " "
      + EnPassantField(b.enPassant) + " " + NatToString(b.halfmove) + " " + NatToString(b.fullmove)
  }

  lemma NoSpaceInFenPlacement(b: Board)
    ensures ' ' !in Placement(b)
  {
    var fields := seq(8, row requires 0 <= row < 8 => RankFen(Row(b, row)));
    forall row | 0 <= row < 8
      ensures ' ' !in fields[row]
    {
      RankFenRoundTrip(Row(b, row), 0);
    }
    JoinAvoids("/", fields, ' ');
  }

  lemma NoSpaceInNumber(n: nat)
    ensures ' ' !in NatToString(n)
  {
    var s := NatToString(n);
    forall i | 0 <= i < |s|
      ensures s[i] != ' '
    {
      assert IsDigit(s[i]);
    }
  }

  /** Six space-free fields joined by spaces split back into the six. */
  lemma SixFieldsSplit(p: string, t: string, r: string, e: string, h: string, f: string)
    requires ' ' !in p && ' ' !in t && ' ' !in r && ' ' !in e && ' ' !in h && ' ' !in f
    ensures SplitOn(p + " " + t + " " + r + " " + e + " " + h + " " + f, ' ') == [p, t, r, e, h, f]
  {
    SixFieldsRegroup(p, t, r, e, h, f);
    NestedFieldsSplit(p, t, r, e, h, f);
  }

  lemma NestedFieldsSplit(p: string, t: string, r: string, e: string, h: string, f: string)
    requires ' ' !in p && ' ' !in t && ' ' !in r && ' ' !in e && ' ' !in h && ' ' !in f
    ensures SplitOn(p + [' '] + (t + [' '] + (r + [' '] + (e + [' '] + (h + [' '] + f)))), ' ') == [p, t, r, e, h, f]
  {
    var x5 := h + [' '] + f;
    var x4 := e + [' '] + x5;
    var x3 := r + [' '] + x4;
    var x2 := t + [' '] + x3;
    SplitOnPlain(f, ' ');
    SplitOnFirst(h, ' ', f);
    SplitOnFirst(e, ' ', x5);
    SplitOnFirst(r, ' ', x4);
    SplitOnFirst(t, ' ', x3);
    SplitOnFirst(p, ' ', x2);
  }

  lemma SixFieldsRegroup(p: string, t: string, r: string, e: string, h: string, f: string)
    ensures p + " " + t + " " + r + " " + e + " " + h + " " + f
      == p + [' '] + (t + [' '] + (r + [' '] + (e + [' '] + (h + [' '] + f))))
  {
    var x5 := h + [' '] + f;
    var x4 := e + [' '] + x5;
    var x3 := r + [' '] + x4;
    var l1 := p + " " + t;
    var l2 := l1 + " " + r;
    var l3 := l2 + " " + e;
    var l4 := l3 + " " + h;
    assert l4 + " " + f == l3 + [' '] + x5;
    assert l3 + [' '] + x5 == l2 + [' '] + x4;
    assert l2 + [' '] + x4 == l1 + [' '] + x3;
  }

  lemma NoSpaceInPlacement(b: Board)
    ensures ' ' !in KeyPlacement(b)
  {
    var rows := seq(8, row requires 0 <= row < 8 => KeyRow(Row(b, row)));
    forall i | 0 <= i < 8
      ensures ' ' !in rows[i]
    {
      forall k | 0 <= k < |rows[i]|
        ensures rows[i][k] != ' '
      {
        assert rows[i][k] == KeySquare(Row(b, i)[k]);
      }
    }
    JoinAvoids("/", rows, ' ');
  }

  lemma NoSpaceInEnPassant(ep: Option<(Coord, Coord)>)
    ensures ' ' !in EnPassantField(ep)
  {
    if ep.Some? {
      assert EnPassantField(ep) == [FileLabels[ep.value.1], DigitChar(8 - ep.value.0)];
    }
  }

  lemma NoSpaceInCastling(rights: Rights)
    ensures ' ' !in CastlingField(rights)
  {
    var text := (if rights.whiteKing then "K" else "")
      + (if rights.whiteQueen then "Q" else "")
      + (if rights.blackKing then "k" else "")
      + (if rights.blackQueen then "q" else "");
    assert ' ' !in text;
  }

  /** Six space-free fields joined by spaces can be read back one by one. */
  lemma CutSixFields(p: string, t: string, r: string, e: string, h: string, f: string,
                     p2: string, t2: string, r2: string, e2: string, h2: string, f2: string)
    requires ' ' !in p && ' ' !in t && ' ' !in r && ' ' !in e && ' ' !in h
    requires ' ' !in p2 && ' ' !in t2 && ' ' !in r2 && ' ' !in e2 && ' ' !in h2
    requires p + " " + t + " " + r + " " + e + " " + h + " " + f
          == p2 + " " + t2 + " " + r2 + " " + e2 + " " + h2 + " " + f2
    ensures p == p2 && t == t2 && r == r2 && e == e2 && h == h2 && f == f2
  {
    var tail1 := t + [' '] + (r + [' '] + (e + [' '] + (h + [' '] + f)));
    var tail2 := t2 + [' '] + (r2 + [' '] + (e2 + [' '] + (h2 + [' '] + f2)));
    assert p + " " + t + " " + r + " " + e + " " + h + " " + f == p + [' '] + tail1;
    assert p2 + " " + t2 + " " + r2 + " " + e2 + " " + h2 + " " + f2 == p2 + [' '] + tail2;
    CutAtSeparator(p, tail1, p2, tail2, ' ');
    CutAtSeparator(t, r + [' '] + (e + [' '] + (h + [' '] + f)), t2, r2 + [' '] + (e2 + [' '] + (h2 + [' '] + f2)), ' ');
    CutAtSeparator(r, e + [' '] + (h + [' '] + f), r2, e2 + [' '] + (h2 + [' '] + f2), ' ');
    CutAtSeparator(e, h + [' '] + f, e2, h2 + [' '] + f2, ' ');
    CutAtSeparator(h, f, h2, f2, ' ');
  }

  /** Equal placement fields mean the same letter, or '.', on every square. */
  lemma KeyPlacementDetermines(a: Board, b: Board)
    requires KeyPlacement(a) == KeyPlacement(b)
    ensures forall row, col :: InBounds(row, col) ==> KeySquare(Get(a, row, col)) == KeySquare(Get(b, row, col))
  {
    var rowsA := seq(8, row requires 0 <= row < 8 => KeyRow(Row(a, row)));
    var rowsB := seq(8, row requires 0 <= row < 8 => KeyRow(Row(b, row)));
    forall i | 0 <= i < 8
      ensures '/' !in rowsA[i] && '/' !in rowsB[i]
    {
      forall k | 0 <= k < 8
        ensures rowsA[i][k] != '/' && rowsB[i][k] != '/'
      {
        assert rowsA[i][k] == KeySquare(Row(a, i)[k]);
        assert rowsB[i][k] == KeySquare(Row(b, i)[k]);
      }
    }
    SplitJoin(rowsA, '/');
    SplitJoin(rowsB, '/');
    forall row, col | InBounds(row, col)
      ensures KeySquare(Get(a, row, col)) == KeySquare(Get(b, row, col))
    {
      assert rowsA[row][col] == KeySquare(Get(a, row, col));
      assert rowsB[row][col] == KeySquare(Get(b, row, col));
    }
  }

  /** Two boards with the same key agree on every piece letter, the side to
      move, the rights, the en-passant target and both clocks. */
  lemma BoardKeyDetermines(a: Board, b: Board)
    requires BoardKey(a) == BoardKey(b)
    ensures a.current == b.current && a.rights == b.rights && a.enPassant == b.enPassant
    ensures a.halfmove == b.halfmove && a.fullmove == b.fullmove
    ensures forall row, col :: InBounds(row, col) ==> KeySquare(Get(a, row, col)) == KeySquare(Get(b, row, col))
  {
    NoSpaceInPlacement(a);
    NoSpaceInPlacement(b);
    NoSpaceInCastling(a.rights);
    NoSpaceInCastling(b.rights);
    NoSpaceInEnPassant(a.enPassant);
    NoSpaceInEnPassant(b.enPassant);
    CutSixFields(KeyPlacement(a), ActiveField(a.current), CastlingField(a.rights),
      EnPassantField(a.enPassant), NatToString(a.halfmove), NatToString(a.fullmove),
      KeyPlacement(b), ActiveField(b.current), CastlingField(b.rights),
      EnPassantField(b.enPassant), NatToString(b.halfmove), NatToString(b.fullmove));
    NatToStringInjective(a.halfmove, b.halfmove);
    NatToStringInjective(a.fullmove, b.fullmove);
    CastlingFieldInjective(a.rights, b.rights);
    EnPassantFieldFaithful(a.enPassant);
    EnPassantFieldFaithful(b.enPassant);
    KeyPlacementDetermines(a, b);
  }
}
