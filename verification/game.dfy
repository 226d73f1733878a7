/** The game session (chess_game/game_logic.py, class `Game`): the board,
    the boards played through, the move log, captured pieces, repetition
    counts and the result, with moves applied and taken back. */
module Session {
  import opened Common
  import opened Notation
  import opened Pieces
  import opened Chessboard
  import opened Attacks
  import opened MoveGen
  import opened Apply
  import opened Legal
  import opened AttackMap
  import Learning

  /** The learning store and the game snapshots it reads. */
  type Store = Learning.Store
  type Snapshot = Learning.Snapshot

  datatype Game = Game(
    board: Board,
    history: seq<Board>,
    moveLog: seq<string>,
    capturedWhite: seq<Piece>,
    capturedBlack: seq<Piece>,
    repetition: map<string, nat>,
    drawOfferedBy: Option<Color>,
    result: Option<string>,
    lastMove: Option<Move>)

  // ---------------------------------------------------------------------------
  // Repetition keys

  /** Which key the repetition table is kept under: the program's
      `board_key`, which ends with the two move clocks, or the position alone. */
  datatype KeyRule = WithClocks | PositionOnly

  /** The key without the clocks: placement, side to move, castling rights
      and en-passant target. */
  function PositionKey(b: Board): string {
    KeyPlacement(b) + " " + ActiveField(b.current) + " " + CastlingField(b.rights) + " " + EnPassantField(b.enPassant)
  }

  function Key(rule: KeyRule, b: Board): string {
    match rule
    case WithClocks => BoardKey(b)
    case PositionOnly => PositionKey(b)
  }

  /** The same position for the repetition rule: the same piece on every
      square, the same side to move, the same castling rights and the same
      en-passant target. */
  predicate SamePosition(a: Board, b: Board) {
    a.current == b.current && a.rights == b.rights && a.enPassant == b.enPassant
    && forall row, col | 0 <= row < 8 && 0 <= col < 8 :: KeySquare(Get(a, row, col)) == KeySquare(Get(b, row, col))
  }

  /** Four space-free fields joined by spaces can be read back one by one. */
  lemma CutFourFields(p: string, t: string, r: string, e: string, p2: string, t2: string, r2: string, e2: string)
    requires ' ' !in p && ' ' !in t && ' ' !in r
    requires ' ' !in p2 && ' ' !in t2 && ' ' !in r2
    requires p + " " + t + " " + r + " " + e == p2 + " " + t2 + " " + r2 + " " + e2
    ensures p == p2 && t == t2 && r == r2 && e == e2
  {
    assert p + " " + t + " " + r + " " + e == p + [' '] + (t + [' '] + (r + [' '] + e));
    assert p2 + " " + t2 + " " + r2 + " " + e2 == p2 + [' '] + (t2 + [' '] + (r2 + [' '] + e2));
    CutAtSeparator(p, t + [' '] + (r + [' '] + e), p2, t2 + [' '] + (r2 + [' '] + e2), ' ');
    CutAtSeparator(t, r + [' '] + e, t2, r2 + [' '] + e2, ' ');
    CutAtSeparator(r, e, r2, e2, ' ');
  }

  /** Boards with the same piece letters have the same placement field. */
  lemma SamePlacement(a: Board, b: Board)
    requires forall row, col :: InBounds(row, col) ==> KeySquare(Get(a, row, col)) == KeySquare(Get(b, row, col))
    ensures KeyPlacement(a) == KeyPlacement(b)
  {
    var rowsA := seq(8, row requires 0 <= row < 8 => KeyRow(Row(a, row)));
    var rowsB := seq(8, row requires 0 <= row < 8 => KeyRow(Row(b, row)));
    forall i | 0 <= i < 8
      ensures rowsA[i] == rowsB[i]
    {
      forall k | 0 <= k < 8
        ensures rowsA[i][k] == rowsB[i][k]
      {
        assert rowsA[i][k] == KeySquare(Get(a, i, k));
        assert rowsB[i][k] == KeySquare(Get(b, i, k));
      }
    }
    assert rowsA == rowsB;
  }

  lemma ActiveFieldInjective(a: Color, b: Color)
    ensures ActiveField(a) == ActiveField(b) <==> a == b
  {
  }

  lemma EnPassantFieldInjective(a: Option<(Coord, Coord)>, b: Option<(Coord, Coord)>)
    ensures EnPassantField(a) == EnPassantField(b) <==> a == b
  {
    EnPassantFieldFaithful(a);
    EnPassantFieldFaithful(b);
  }

  /** The position key identifies exactly the position, whatever the clocks. */
  lemma PositionKeyFaithful(a: Board, b: Board)
    ensures PositionKey(a) == PositionKey(b) <==> SamePosition(a, b)
  {
    if PositionKey(a) == PositionKey(b) {
      NoSpaceInPlacement(a);
      NoSpaceInPlacement(b);
      NoSpaceInCastling(a.rights);
      NoSpaceInCastling(b.rights);
      CutFourFields(KeyPlacement(a), ActiveField(a.current), CastlingField(a.rights), EnPassantField(a.enPassant),
        KeyPlacement(b), ActiveField(b.current), CastlingField(b.rights), EnPassantField(b.enPassant));
      ActiveFieldInjective(a.current, b.current);
      CastlingFieldInjective(a.rights, b.rights);
      EnPassantFieldInjective(a.enPassant, b.enPassant);
      KeyPlacementDetermines(a, b);
    }
    if SamePosition(a, b) {
      SamePlacement(a, b);
    }
  }

  /** The program's key tells apart boards in the same position whose clocks
      differ, which the position key does not. */
  lemma ClocksSplitPosition(a: Board, b: Board)
    requires SamePosition(a, b) && (a.halfmove != b.halfmove || a.fullmove != b.fullmove)
    ensures Key(WithClocks, a) != Key(WithClocks, b)
    ensures Key(PositionOnly, a) == Key(PositionOnly, b)
  {
    if BoardKey(a) == BoardKey(b) {
      BoardKeyDetermines(a, b);
    }
    PositionKeyFaithful(a, b);
  }

  // ---------------------------------------------------------------------------
  // Repetition counts

  /** How often `key` has been counted; absent keys count 0. */
  function Seen(rep: map<string, nat>, key: string): nat {
    if key in rep then rep[key] else 0
  }

  /** `_update_repetition`: one more occurrence of `key`. */
  function Counted(rep: map<string, nat>, key: string): (r: map<string, nat>)
    ensures Seen(r, key) == Seen(rep, key) + 1
    ensures forall k :: k != key ==> Seen(r, k) == Seen(rep, k)
  {
    rep[key := Seen(rep, key) + 1]
  }

  /** How many boards of `h` have `key`. */
  function Occurrences(h: seq<Board>, rule: KeyRule, key: string): nat {
    if |h| == 0 then 0
    else Occurrences(h[..|h| - 1], rule, key) + (if Key(rule, h[|h| - 1]) == key then 1 else 0)
  }

  /** How many boards of `h` are in the same position as `b`. */
  function Repeats(h: seq<Board>, b: Board): nat {
    if |h| == 0 then 0
    else Repeats(h[..|h| - 1], b) + (if SamePosition(h[|h| - 1], b) then 1 else 0)
  }

  /** Under the position key, counting keys is counting repeated positions. */
  lemma {:induction false} OccurrencesArePositions(h: seq<Board>, b: Board)
    ensures Occurrences(h, PositionOnly, PositionKey(b)) == Repeats(h, b)
  {
    if |h| > 0 {
      OccurrencesArePositions(h[..|h| - 1], b);
      PositionKeyFaithful(h[|h| - 1], b);
    }
  }

  // ---------------------------------------------------------------------------
  // Game state

  /** `Game.__init__`: the initial position, seen once. */
  function NewGame(rule: KeyRule): (g: Game)
    ensures g.board == InitialBoard() && g.capturedWhite == [] && g.capturedBlack == [] && g.drawOfferedBy.None?
    ensures g.history == [g.board] && g.moveLog == [] && g.result.None? && g.lastMove.None?
    ensures forall k :: Seen(g.repetition, k) == Occurrences(g.history, rule, k)
  {
    var b := InitialBoard();
    var g := Game(b, [b], [], [], [], Counted(map[], Key(rule, b)), None, None, None);
    assert g.history[..0] == [];
    g
  }

  /** The side to move is mated. */
  function IsCheckmate(b: Board): (r: bool)
    ensures var k := LocateKing(b, b.current);
      r <==> k.Some? && Capturable(b, k.value.0, k.value.1, Opposite(b.current)) && LegalMoves(b, b.current) == []
  {
    CheckReading(b, b.current);
    IsInCheck(b, b.current) && !HasAnyLegalMoves(b, b.current)
  }

  /** The side to move has no legal move and is not in check. */
  function IsStalemate(b: Board): (r: bool)
    ensures var k := LocateKing(b, b.current);
      r <==> !(k.Some? && Capturable(b, k.value.0, k.value.1, Opposite(b.current))) && LegalMoves(b, b.current) == []
    ensures r ==> !IsCheckmate(b)
  {
    CheckReading(b, b.current);
    !IsInCheck(b, b.current) && !HasAnyLegalMoves(b, b.current)
  }

  /** `can_claim_fifty_move_draw`: a hundred plies without a capture or a pawn move. */
  predicate CanClaimFiftyMoves(b: Board) {
    b.halfmove >= 100
  }

  /** `can_claim_threefold_draw`: the current key counted three times. When
      the table counts the recorded boards exactly, that is three boards of
      the history with the current key; when it counts at least as often,
      three such boards suffice. */
  function CanClaimThreefold(g: Game, rule: KeyRule): (r: bool)
    ensures Tracks(g, rule) ==> (r <==> Occurrences(g.history, rule, Key(rule, g.board)) >= 3)
    ensures Covers(g, rule) && Occurrences(g.history, rule, Key(rule, g.board)) >= 3 ==> r
  {
    Seen(g.repetition, Key(rule, g.board)) >= 3
  }


  /** After a played move the fifty-move claim stands exactly when the move
      was neither a pawn's nor a capture and the clock already stood at 99
      plies or more. */
  lemma FiftyMovesAfterMove(g: Game, m: Move, rule: KeyRule)
    requires ApplyMove(g, m, rule).0
    ensures Get(g.board, m.fromRow, m.fromCol).Some?
    ensures CanClaimFiftyMoves(ApplyMove(g, m, rule).1.board) <==>
      && Get(g.board, m.fromRow, m.fromCol).value.kind != Pawn
      && MakeMove(g.board, m).captured.None?
      && g.board.halfmove >= 99
  {
    assert Playable(g.board, m, g.board.current);
  }

  /** `update_result_after_move`: checkmate, then stalemate, then the
      fifty-move rule, then threefold repetition; the result stays as it was
      when none applies. */
  function ResultAfterMove(g: Game, rule: KeyRule): (r: Option<string>)
    ensures IsCheckmate(g.board) ==> r == Some(Learning.WinPhrase(Opposite(g.board.current)) + " by checkmate")
    ensures !IsCheckmate(g.board) && !HasAnyLegalMoves(g.board, g.board.current) ==> r == Some("Draw by stalemate")
    ensures HasAnyLegalMoves(g.board, g.board.current) ==>
      r == if CanClaimFiftyMoves(g.board) then Some("Draw by fifty-move rule")
           else if CanClaimThreefold(g, rule) then Some("Draw by threefold repetition")
           else g.result
    ensures r == Some("Draw by threefold repetition") ==> CanClaimThreefold(g, rule) || g.result == r
  {
    if IsCheckmate(g.board) then Some(Learning.WinPhrase(Opposite(g.board.current)) + " by checkmate")
    else if IsStalemate(g.board) then Some("Draw by stalemate")
    else if CanClaimFiftyMoves(g.board) then Some("Draw by fifty-move rule")
    else if CanClaimThreefold(g, rule) then Some("Draw by threefold repetition")
    else g.result
  }

  /** The log entry of a move: "W: " or "B: ", the two squares joined by a
      dash, and "=" with the promotion letter when there is one. */
  function MoveText(m: Move, color: Color): string
    requires OnBoard(m)
  {
    var text := IndicesToSquare(m.fromRow, m.fromCol) + "-" + IndicesToSquare(m.toRow, m.toCol);
    var text := if m.promotion.Some? then text + "=" + [KindLetter(m.promotion.value)] else text;
    (if color == White then "W" else "B") + ": " + text
  }

  /** The entry is eight characters, or ten with a promotion, with a space
      third; the mover, both squares and the promotion can be read back. */
  lemma MoveTextReadable(m: Move, color: Color)
    requires OnBoard(m)
    ensures var t := MoveText(m, color);
      && |t| == (if m.promotion.Some? then 10 else 8) && t[2] == ' '
      && (t[0] == 'W' <==> color == White)
      && SquareToIndices(t[3..5]) == Some((m.fromRow, m.fromCol))
      && SquareToIndices(t[6..8]) == Some((m.toRow, m.toCol))
      && (m.promotion.Some? ==> t[8] == '=' && t[9] == KindLetter(m.promotion.value))
  {
    var f := IndicesToSquare(m.fromRow, m.fromCol);
    var to := IndicesToSquare(m.toRow, m.toCol);
    assert f == [FileLabels[m.fromCol], DigitChar(8 - m.fromRow)];
    assert to == [FileLabels[m.toCol], DigitChar(8 - m.toRow)];
    var t := MoveText(m, color);
    var letter := if color == White then 'W' else 'B';
    var tail := if m.promotion.Some? then ['=', KindLetter(m.promotion.value)] else [];
    assert t == [letter, ':', ' ', f[0], f[1], '-', to[0], to[1]] + tail;
    assert t[3..5] == f && t[6..8] == to;
    SquareRoundTrip(m.fromRow, m.fromCol);
    SquareRoundTrip(m.toRow, m.toCol);
  }

  /** Two moves are logged alike exactly when the same side moved between
      the same squares with the same promotion. */
  lemma MoveTextInjective(m1: Move, c1: Color, m2: Move, c2: Color)
    requires OnBoard(m1) && OnBoard(m2)
    ensures MoveText(m1, c1) == MoveText(m2, c2) <==>
      c1 == c2 && (m1.fromRow, m1.fromCol, m1.toRow, m1.toCol, m1.promotion) == (m2.fromRow, m2.fromCol, m2.toRow, m2.toCol, m2.promotion)
  {
    MoveTextReadable(m1, c1);
    MoveTextReadable(m2, c2);
    if MoveText(m1, c1) == MoveText(m2, c2) && m1.promotion.Some? {
      KindLetterInjective(m1.promotion.value, m2.promotion.value);
    }
  }

  /** `apply_move`: a move outside the legal list is refused and changes
      nothing; a legal one is played, the new board is recorded, counted
      and logged, a capture is filed by the captured piece's colour, the
      result is brought up to date and a pending draw offer lapses. */
  function ApplyMove(g: Game, m: Move, rule: KeyRule): (r: (bool, Game))
    ensures !r.0 <==> m !in LegalMoves(g.board, g.board.current)
    ensures !r.0 ==> r.1 == g
    ensures r.0 ==> (OnBoard(m)
      && r.1.board == MakeMove(g.board, m).board
      && r.1.history == g.history + [r.1.board]
      && r.1.moveLog == g.moveLog + [MoveText(m, g.board.current)]
      && r.1.lastMove == Some(m) && r.1.drawOfferedBy.None?
      && r.1.result == ResultAfterMove(r.1.(result := g.result, drawOfferedBy := g.drawOfferedBy), rule)
      && Seen(r.1.repetition, Key(rule, r.1.board)) == Seen(g.repetition, Key(rule, r.1.board)) + 1
      && (forall k :: k != Key(rule, r.1.board) ==> Seen(r.1.repetition, k) == Seen(g.repetition, k)))
  {
    var color := g.board.current;
    if m !in LegalMoves(g.board, color) then (false, g)
    else
      var moved := MakeMove(g.board, m);
      var b := moved.board;
      var capturedWhite := if moved.captured.Some? && moved.captured.value.color == White
        then g.capturedWhite + [moved.captured.value] else g.capturedWhite;
      var capturedBlack := if moved.captured.Some? && moved.captured.value.color == Black
        then g.capturedBlack + [moved.captured.value] else g.capturedBlack;
      var g1 := g.(board := b, history := g.history + [b], capturedWhite := capturedWhite,
        capturedBlack := capturedBlack, moveLog := g.moveLog + [MoveText(m, color)],
        repetition := Counted(g.repetition, Key(rule, b)), lastMove := Some(m));
      (true, g1.(result := ResultAfterMove(g1, rule), drawOfferedBy := None))
  }

  /** A played move's capture lands in the list of its colour and nowhere else. */
  lemma CapturesFiled(g: Game, m: Move, rule: KeyRule)
    requires ApplyMove(g, m, rule).0
    ensures var r := ApplyMove(g, m, rule).1;
      var captured := MakeMove(g.board, m).captured;
      && (captured.None? ==> r.capturedWhite == g.capturedWhite && r.capturedBlack == g.capturedBlack)
      && (captured.Some? && captured.value.color == White ==>
            r.capturedWhite == g.capturedWhite + [captured.value] && r.capturedBlack == g.capturedBlack)
      && (captured.Some? && captured.value.color == Black ==>
            r.capturedBlack == g.capturedBlack + [captured.value] && r.capturedWhite == g.capturedWhite)
  {
  }

  /** `undo_last_move`: refused with only the starting board left; otherwise
      the last board is dropped and the one before becomes current, the last
      log entry goes, and the result and last move are cleared. The
      repetition counts and captured pieces are left as they are. */
  function UndoLastMove(g: Game): (r: (bool, Game))
    ensures !r.0 <==> |g.history| <= 1
    ensures !r.0 ==> r.1 == g
    ensures r.0 ==> (r.1.history == g.history[..|g.history| - 1] && r.1.board == r.1.history[|r.1.history| - 1]
      && r.1.result.None? && r.1.lastMove.None?
      && r.1.repetition == g.repetition && r.1.capturedWhite == g.capturedWhite && r.1.capturedBlack == g.capturedBlack
      && r.1.drawOfferedBy == g.drawOfferedBy
      && r.1.moveLog == if |g.moveLog| > 0 then g.moveLog[..|g.moveLog| - 1] else g.moveLog)
  {
    if |g.history| <= 1 then (false, g)
    else
      var history := g.history[..|g.history| - 1];
      var log := if |g.moveLog| > 0 then g.moveLog[..|g.moveLog| - 1] else g.moveLog;
      (true, g.(history := history, board := history[|history| - 1], moveLog := log, result := None, lastMove := None))
  }

  // ---------------------------------------------------------------------------
  // Invariants

  /** The board is the last one recorded, and each move after the first
      board has one log entry. */
  predicate Consistent(g: Game) {
    |g.history| >= 1 && g.history[|g.history| - 1] == g.board && |g.moveLog| == |g.history| - 1
  }

  /** The repetition table counts every key at least as often as the
      recorded boards carry it (taking a move back does not uncount). */
  ghost predicate Covers(g: Game, rule: KeyRule) {
    forall k :: Occurrences(g.history, rule, k) <= Seen(g.repetition, k)
  }

  /** The repetition table counts exactly the recorded boards. */
  ghost predicate Tracks(g: Game, rule: KeyRule) {
    forall k :: Occurrences(g.history, rule, k) == Seen(g.repetition, k)
  }

  lemma OccurrencesSnoc(h: seq<Board>, b: Board, rule: KeyRule, k: string)
    ensures Occurrences(h + [b], rule, k) == Occurrences(h, rule, k) + (if Key(rule, b) == k then 1 else 0)
  {
    assert (h + [b])[..|h|] == h;
  }

  lemma NewGameInvariants(rule: KeyRule)
    ensures Consistent(NewGame(rule)) && Tracks(NewGame(rule), rule) && Covers(NewGame(rule), rule)
  {
  }

  /** Playing a move keeps the board, history and log in step. */
  lemma ApplyMoveConsistent(g: Game, m: Move, rule: KeyRule)
    requires Consistent(g)
    ensures Consistent(ApplyMove(g, m, rule).1)
  {
  }

  /** Playing a move keeps the repetition table exact. */
  lemma ApplyMoveTracks(g: Game, m: Move, rule: KeyRule)
    requires Tracks(g, rule)
    ensures Tracks(ApplyMove(g, m, rule).1, rule)
  {
    var r := ApplyMove(g, m, rule);
    if r.0 {
      forall k {
        OccurrencesSnoc(g.history, r.1.board, rule, k);
      }
    }
  }

  /** Playing a move keeps the repetition table covering. */
  lemma ApplyMoveCovers(g: Game, m: Move, rule: KeyRule)
    requires Covers(g, rule)
    ensures Covers(ApplyMove(g, m, rule).1, rule)
  {
    var r := ApplyMove(g, m, rule);
    if r.0 {
      forall k {
        OccurrencesSnoc(g.history, r.1.board, rule, k);
      }
    }
  }

  /** Taking a move back keeps the board, history and log in step and the
      repetition table covering. */
  lemma UndoInvariants(g: Game, rule: KeyRule)
    ensures Consistent(g) ==> Consistent(UndoLastMove(g).1)
    ensures Covers(g, rule) ==> Covers(UndoLastMove(g).1, rule)
  {
    var r := UndoLastMove(g);
    if r.0 {
      var h := r.1.history;
      assert g.history == h + [g.history[|g.history| - 1]];
      forall k {
        OccurrencesSnoc(h, g.history[|g.history| - 1], rule, k);
      }
    }
  }

  /** Taking back a move just played restores the board, the history and
      the log. */
  lemma UndoAfterApply(g: Game, m: Move, rule: KeyRule)
    requires Consistent(g) && ApplyMove(g, m, rule).0
    ensures var u := UndoLastMove(ApplyMove(g, m, rule).1);
      u.0 && u.1.board == g.board && u.1.history == g.history && u.1.moveLog == g.moveLog
      && u.1.result.None? && u.1.lastMove.None?
  {
    var r := ApplyMove(g, m, rule).1;
    assert r.history[..|r.history| - 1] == g.history;
    assert r.moveLog[..|r.moveLog| - 1] == g.moveLog;
  }

  // ---------------------------------------------------------------------------
  // Threefold repetition

  /** Plies since the start of the game, read off the full-move number and
      the side to move. */
  function Ply(b: Board): int {
    2 * b.fullmove + (if b.current == Black then 1 else 0)
  }

  /** Every legal move advances the ply count by one. */
  lemma LegalMoveAdvances(b: Board, m: Move)
    requires m in LegalMoves(b, b.current)
    ensures OnBoard(m) && Ply(MakeMove(b, m).board) == Ply(b) + 1
  {
    assert Playable(b, m, b.current);
  }

  /** The recorded boards have strictly increasing ply counts. */
  predicate Climbing(h: seq<Board>) {
    forall i, j :: 0 <= i < j < |h| ==> Ply(h[i]) < Ply(h[j])
  }

  lemma ClimbSnoc(h: seq<Board>, b: Board)
    requires Climbing(h) && |h| > 0 && Ply(h[|h| - 1]) < Ply(b)
    ensures Climbing(h + [b])
  {
    var h' := h + [b];
    forall i, j | 0 <= i < j < |h'|
      ensures Ply(h'[i]) < Ply(h'[j])
    {
      if j == |h| && i < |h| - 1 {
        assert Ply(h[i]) < Ply(h[|h| - 1]);
      }
    }
  }

  /** Playing a move forward keeps the ply counts climbing. */
  lemma ApplyMoveClimbs(g: Game, m: Move, rule: KeyRule)
    requires Consistent(g) && Climbing(g.history)
    ensures Climbing(ApplyMove(g, m, rule).1.history)
  {
    var r := ApplyMove(g, m, rule);
    if r.0 {
      LegalMoveAdvances(g.board, m);
      assert g.history[|g.history| - 1] == g.board;
      assert r.1.board == MakeMove(g.board, m).board;
      ClimbSnoc(g.history, r.1.board);
      assert r.1.history == g.history + [r.1.board];
    }
  }

  /** No earlier board carries `k`, so it occurs nowhere. */
  lemma {:induction false} NoOccurrence(h: seq<Board>, rule: KeyRule, k: string)
    requires forall i :: 0 <= i < |h| ==> Key(rule, h[i]) != k
    ensures Occurrences(h, rule, k) == 0
  {
    if |h| > 0 {
      NoOccurrence(h[..|h| - 1], rule, k);
    }
  }

  /** Boards whose ply counts differ have different program keys. */
  lemma ClocksKeyApart(a: Board, b: Board)
    requires Ply(a) != Ply(b)
    ensures BoardKey(a) != BoardKey(b)
  {
    if BoardKey(a) == BoardKey(b) {
      BoardKeyDetermines(a, b);
    }
  }

  /** With the program's key, boards of a game played forward all have
      different keys. */
  lemma {:induction false} ClimbingKeysDistinct(h: seq<Board>, k: string)
    requires Climbing(h)
    ensures Occurrences(h, WithClocks, k) <= 1
  {
    if |h| > 0 {
      var h' := h[..|h| - 1];
      ClimbingKeysDistinct(h', k);
      if Key(WithClocks, h[|h| - 1]) == k {
        forall i | 0 <= i < |h'|
          ensures Key(WithClocks, h'[i]) != k
        {
          ClocksKeyApart(h'[i], h[|h| - 1]);
        }
        NoOccurrence(h', WithClocks, k);
      }
    }
  }

  /** As the program keeps the table: in a game played forward from the
      start, no key is ever counted twice, so a threefold repetition is
      never claimable however often a position recurs. */
  lemma ThreefoldNeverClaimedAsWritten(g: Game)
    requires Tracks(g, WithClocks) && Climbing(g.history)
    ensures forall k :: Seen(g.repetition, k) <= 1
    ensures !CanClaimThreefold(g, WithClocks)
  {
    forall k
      ensures Seen(g.repetition, k) <= 1
    {
      ClimbingKeysDistinct(g.history, k);
    }
  }

  /** Hence a move played forward never ends the game by repetition. */
  lemma NoRepetitionDrawAsWritten(g: Game, m: Move)
    requires Consistent(g) && Tracks(g, WithClocks) && Climbing(g.history)
    requires g.result != Some("Draw by threefold repetition")
    ensures ApplyMove(g, m, WithClocks).1.result != Some("Draw by threefold repetition")
  {
    var r := ApplyMove(g, m, WithClocks);
    if r.0 {
      ApplyMoveTracks(g, m, WithClocks);
      ApplyMoveClimbs(g, m, WithClocks);
      var g1 := r.1.(result := g.result);
      ThreefoldNeverClaimedAsWritten(g1);
    }
  }

  /** With the position key the claim means what the rule says: the
      current position stands three times among the recorded boards (at
      least three times once moves have been taken back). */
  lemma ThreefoldMeansRepetition(g: Game)
    ensures Tracks(g, PositionOnly) ==> (CanClaimThreefold(g, PositionOnly) <==> Repeats(g.history, g.board) >= 3)
    ensures Covers(g, PositionOnly) && Repeats(g.history, g.board) >= 3 ==> CanClaimThreefold(g, PositionOnly)
  {
    OccurrencesArePositions(g.history, g.board);
  }

  // ---------------------------------------------------------------------------
  // Results as the experience store reads them

  /** A text lacking the first letter of `sub` does not contain it. */
  lemma Lacks(text: string, sub: string)
    requires |sub| > 0 && sub[0] !in text
    ensures !Contains(text, sub)
  {
    if Contains(text, sub) {
      ContainsFirst(text, sub);
    }
  }

  /** A checkmate result is no draw and credits exactly the winner. */
  lemma CheckmateRead(winner: Color, c: Color)
    ensures var text := Learning.WinPhrase(winner) + " by checkmate";
      !Learning.IsDrawResult(text) && (Learning.AiWon(text, c) <==> c == winner)
  {
    var phrase := Learning.WinPhrase(winner);
    var tail := " by checkmate";
    var text := phrase + tail;
    assert 'D' !in phrase && 'D' !in tail;
    Lacks(text, "Draw");
    assert text == "" + phrase + tail;
    ContainsAppended("", phrase, tail);
    var other := Learning.WinPhrase(Opposite(winner));
    assert other[0] !in phrase && other[0] !in tail;
    Lacks(text, other);
  }

  /** A result "Draw by ..." reads as a draw and as a win for nobody. */
  lemma DrawRead(reason: string, c: Color)
    ensures Learning.IsDrawResult("Draw by " + reason) && !Learning.AiWon("Draw by " + reason, c)
  {
    assert "Draw by " + reason == "" + "Draw" + (" by " + reason);
    ContainsAppended("", "Draw", " by " + reason);
  }

  // ---------------------------------------------------------------------------
  // The move log and the opening book

  /** Every log entry holds exactly one space, the one after "W:" or "B:". */
  lemma MoveTextOneSpace(m: Move, color: Color)
    requires OnBoard(m)
    ensures SpaceCount(MoveText(m, color)) == 1
  {
    MoveTextReadable(m, color);
    var t := MoveText(m, color);
    assert t == t[..3] + t[3..];
    assert ' ' !in t[3..] by {
      var f := IndicesToSquare(m.fromRow, m.fromCol);
      var to := IndicesToSquare(m.toRow, m.toCol);
      assert f == [FileLabels[m.fromCol], DigitChar(8 - m.fromRow)];
      assert to == [FileLabels[m.toCol], DigitChar(8 - m.toRow)];
    }
    SpaceCountZero(t[3..]);
    SpaceCountAppend(t[..3], t[3..]);
    var head := t[..3];
    assert head[0] != ' ' && head[1..][0] == ':' && head[1..][1..] == [' '];
    assert SpaceCount([' ']) == 1 by { assert [' '][1..] == []; }
  }

  /** Each entry is the log text of some move on the board. */
  ghost predicate Logged(log: seq<string>) {
    forall i :: 0 <= i < |log| ==> exists m: Move, c: Color :: OnBoard(m) && log[i] == MoveText(m, c)
  }

  /** A played move keeps the log made of move texts. */
  lemma ApplyMoveLogged(g: Game, m: Move, rule: KeyRule)
    requires Logged(g.moveLog)
    ensures Logged(ApplyMove(g, m, rule).1.moveLog)
  {
    if ApplyMove(g, m, rule).0 {
      LoggedAppend(g.moveLog, m, g.board.current);
    }
  }

  lemma LoggedAppend(log: seq<string>, m: Move, c: Color)
    requires Logged(log) && OnBoard(m)
    ensures Logged(log + [MoveText(m, c)])
  {
    var log' := log + [MoveText(m, c)];
    forall i | 0 <= i < |log'|
      ensures exists m': Move, c': Color :: OnBoard(m') && log'[i] == MoveText(m', c')
    {
      if i < |log| {
        assert log'[i] == log[i];
      } else {
        assert OnBoard(m) && log'[i] == MoveText(m, c);
      }
    }
  }

  lemma LoggedOneSpace(log: seq<string>)
    requires Logged(log)
    ensures Learning.OneSpaceEach(log)
  {
    forall e | e in log
      ensures SpaceCount(e) == 1
    {
      var i :| 0 <= i < |log| && log[i] == e;
      var m: Move, c: Color :| OnBoard(m) && log[i] == MoveText(m, c);
      MoveTextOneSpace(m, c);
    }
  }

  /** The opening book as the program writes it never answers: every line a
      game records joins entries that hold a space each, so it has an odd
      number of spaces, while the program's child test admits only lines
      with as many spaces as the prefix, which has an even number. A store
      that starts empty stays silent for every history of logged moves. */
  lemma OpeningBookSilent(s: Store, h: seq<Snapshot>, result: string, ai: Color, history: seq<string>)
    requires Learning.OddKeys(s.openings)
    requires |h| > 0 ==> Logged(h[|h| - 1].moveLog)
    requires Logged(history)
    ensures var r := Learning.RecordGame(s, h, result, ai);
      Learning.OddKeys(r.openings) && Learning.GetOpeningMove(r.openings, history) == None
  {
    if |h| > 0 {
      LoggedOneSpace(h[|h| - 1].moveLog);
    }
    LoggedOneSpace(history);
    Learning.RecordGameKeepsOddKeys(s, h, result, ai);
    Learning.NoSuggestionFromOddKeys(Learning.RecordGame(s, h, result, ai).openings, history);
  }

  /** A new store holds no line, so it satisfies both book invariants. */
  lemma EmptyStoreBook()
    ensures Learning.OddKeys(Learning.EmptyStore().openings) && Learning.NoLosses(Learning.EmptyStore().openings)
  {
  }
}
