/** Move ordering for the search (chess_game/ai_opponent.py, `order_moves`):
    each move gets a heuristic score, and the moves are sorted by it, highest
    first, keeping the generation order among equal scores as Python's
    stable `sort(reverse=True)` does. The same stable sort orders the root
    moves in `choose_ai_move`. */
module Ordering {
  import opened Common
  import opened Notation
  import opened Pieces
  import opened Chessboard
  import opened Attacks
  import opened MoveGen
  import opened Apply
  import opened AttackMap

  // ---------------------------------------------------------------------------
  // A stable sort, highest score first

  datatype Scored = Scored(score: int, move: Move)

  function MovesOf(xs: seq<Scored>): (ms: seq<Move>)
    ensures |ms| == |xs|
    ensures forall i :: 0 <= i < |xs| ==> ms[i] == xs[i].move
  {
    if |xs| == 0 then [] else [xs[0].move] + MovesOf(xs[1..])
  }

  /** Scores never increase from one entry to the next. */
  predicate Descending(xs: seq<Scored>) {
    forall i, j :: 0 <= i < j < |xs| ==> xs[i].score >= xs[j].score
  }

  /** The entries scoring exactly `s`, in their order. */
  function WithScore(xs: seq<Scored>, s: int): seq<Scored> {
    if |xs| == 0 then []
    else (if xs[0].score == s then [xs[0]] else []) + WithScore(xs[1..], s)
  }

  /** Places `x` before the first entry that does not outscore it. */
  function Insert(x: Scored, ys: seq<Scored>): (r: seq<Scored>)
    ensures |r| == |ys| + 1
    ensures multiset(r) == multiset(ys) + multiset{x}
  {
    if |ys| == 0 || ys[0].score <= x.score then [x] + ys
    else
      assert ys == [ys[0]] + ys[1..];
      [ys[0]] + Insert(x, ys[1..])
  }

  /** Insertion sort: each entry goes in front of the later entries it ties. */
  function SortDesc(xs: seq<Scored>): (r: seq<Scored>)
    ensures |r| == |xs|
    ensures multiset(r) == multiset(xs)
  {
    if |xs| == 0 then []
    else
      assert xs == [xs[0]] + xs[1..];
      Insert(xs[0], SortDesc(xs[1..]))
  }

  /** Consecutive scores never increase. */
  predicate Sorted(xs: seq<Scored>) {
    forall i :: 0 < i < |xs| ==> xs[i - 1].score >= xs[i].score
  }

  lemma InsertHead(x: Scored, ys: seq<Scored>)
    ensures |Insert(x, ys)| == |ys| + 1
    ensures Insert(x, ys)[0] == x || Insert(x, ys)[0] == ys[0]
  {
  }

  lemma {:induction false} InsertSorted(x: Scored, ys: seq<Scored>)
    requires Sorted(ys)
    ensures Sorted(Insert(x, ys))
  {
    if |ys| > 0 && ys[0].score > x.score {
      InsertSorted(x, ys[1..]);
      InsertHead(x, ys[1..]);
      var r := Insert(x, ys);
      assert r == [ys[0]] + Insert(x, ys[1..]);
      assert r[0].score >= r[1].score;
    }
  }

  lemma {:induction false} SortedDescending(xs: seq<Scored>)
    requires Sorted(xs)
    ensures Descending(xs)
  {
    if |xs| > 1 {
      SortedDescending(xs[1..]);
      forall i, j | 0 <= i < j < |xs|
        ensures xs[i].score >= xs[j].score
      {
        if i == 0 && j > 1 {
          assert xs[1..][0].score >= xs[1..][j - 1].score;
        } else if i > 0 {
          assert xs[1..][i - 1].score >= xs[1..][j - 1].score;
        }
      }
    }
  }

  /** Sorting yields scores in non-increasing order. */
  lemma {:induction false} SortDescending(xs: seq<Scored>)
    ensures Descending(SortDesc(xs))
  {
    SortSorted(xs);
    SortedDescending(SortDesc(xs));
  }

  lemma {:induction false} SortSorted(xs: seq<Scored>)
    ensures Sorted(SortDesc(xs))
  {
    if |xs| > 0 {
      SortSorted(xs[1..]);
      InsertSorted(xs[0], SortDesc(xs[1..]));
    }
  }

  lemma {:induction false} InsertStable(x: Scored, ys: seq<Scored>, s: int)
    ensures WithScore(Insert(x, ys), s) == (if x.score == s then [x] else []) + WithScore(ys, s)
  {
    if |ys| == 0 || ys[0].score <= x.score {
      var r := [x] + ys;
      assert Insert(x, ys) == r;
      assert r[0] == x && r[1..] == ys;
    } else {
      var t := Insert(x, ys[1..]);
      var r := [ys[0]] + t;
      assert Insert(x, ys) == r;
      assert r[0] == ys[0] && r[1..] == t;
      InsertStable(x, ys[1..], s);
      var pre := if ys[0].score == s then [ys[0]] else [];
      assert WithScore(r, s) == pre + WithScore(t, s);
      assert WithScore(ys, s) == pre + WithScore(ys[1..], s);
      if x.score == s {
        assert pre == [];
      }
    }
  }

  /** Sorting keeps the entries of each score in their original order. */
  lemma {:induction false} SortStable(xs: seq<Scored>, s: int)
    ensures WithScore(SortDesc(xs), s) == WithScore(xs, s)
  {
    if |xs| > 0 {
      SortStable(xs[1..], s);
      InsertStable(xs[0], SortDesc(xs[1..]), s);
    }
  }

  lemma InsertFront(x: Scored, ys: seq<Scored>)
    requires |ys| > 0
    ensures Insert(x, ys)[0] == if ys[0].score <= x.score then x else ys[0]
  {
  }

  /** A first highest entry of the tail, or the head when it scores at least
      as much, is a first highest entry of the whole. */
  lemma FirstMaxCons(xs: seq<Scored>, k': nat) returns (k: nat)
    requires |xs| > 1 && k' < |xs| - 1
    requires forall j :: 0 <= j < |xs| - 1 ==> xs[1..][j].score <= xs[1..][k'].score
    requires forall j :: 0 <= j < k' ==> xs[1..][j].score < xs[1..][k'].score
    ensures k == if xs[k' + 1].score <= xs[0].score then 0 else k' + 1
    ensures forall j :: 0 <= j < |xs| ==> xs[j].score <= xs[k].score
    ensures forall j :: 0 <= j < k ==> xs[j].score < xs[k].score
  {
    k := if xs[k' + 1].score <= xs[0].score then 0 else k' + 1;
    forall j | 1 <= j < |xs|
      ensures xs[j].score <= xs[k].score
      ensures j < k ==> xs[j].score < xs[k].score
    {
      assert xs[j] == xs[1..][j - 1];
    }
  }

  /** The head of the sorted list is the first entry with the highest score. */
  lemma {:induction false} SortHead(xs: seq<Scored>) returns (k: nat)
    requires |xs| > 0
    ensures k < |xs| && |SortDesc(xs)| == |xs| && SortDesc(xs)[0] == xs[k]
    ensures forall j :: 0 <= j < |xs| ==> xs[j].score <= xs[k].score
    ensures forall j :: 0 <= j < k ==> xs[j].score < xs[k].score
  {
    var t := xs[1..];
    if |t| == 0 {
      k := 0;
    } else {
      var k' := SortHead(t);
      InsertFront(xs[0], SortDesc(t));
      k := FirstMaxCons(xs, k');
    }
  }

  /** Moves are carried along by the sort: the same moves, as often. */
  lemma {:induction false} MovesOfMultiset(xs: seq<Scored>)
    ensures forall x :: x in xs ==> x.move in MovesOf(xs)
    ensures forall m :: m in MovesOf(xs) ==> exists x :: x in xs && x.move == m
  {
    forall m | m in MovesOf(xs)
      ensures exists x :: x in xs && x.move == m
    {
      var i :| 0 <= i < |xs| && MovesOf(xs)[i] == m;
      assert xs[i] in xs;
    }
    forall x | x in xs
      ensures x.move in MovesOf(xs)
    {
      var i :| 0 <= i < |xs| && xs[i] == x;
      assert MovesOf(xs)[i] == x.move;
    }
  }

  // ---------------------------------------------------------------------------
  // Scoring a move

  /** What capturing `captured` with `moving` is worth: 1000, plus the
      victim's value, less a tenth of the capturer's. */
  function CaptureScore(moving: Piece, captured: Square): int {
    if captured.None? then 0 else 1000 + PieceValue(captured.value.kind) - PieceValue(moving.kind) / 10
  }

  /** `order_moves` can score `m`: it lies on the board, and a move from an
      empty square has no victim to weigh (the program would fail on one). */
  predicate Scorable(b: Board, m: Move) {
    OnBoard(m) && (Get(b, m.fromRow, m.fromCol).None? ==> Get(b, m.toRow, m.toCol).None?)
  }

  /** The square `order_moves` weighs as the victim, the en-passant pawn
      being sought on row `victimRow`. */
  function VictimWith(b: Board, m: Move, victimRow: int): Square
    requires Scorable(b, m) && InBounds(victimRow, m.toCol)
  {
    if m.isEnPassant && Get(b, m.fromRow, m.fromCol).Some? then Get(b, victimRow, m.toCol)
    else Get(b, m.toRow, m.toCol)
  }

  /** The heuristic score given the victim and whether the move checks the
      opponent: the capture term, 500 for a check, 300 for castling. */
  function ScoreWith(b: Board, m: Move, victim: Square, checks: bool): int
    requires Scorable(b, m) && (victim.Some? ==> Get(b, m.fromRow, m.fromCol).Some?)
  {
    var moving := Get(b, m.fromRow, m.fromCol);
    (if victim.Some? then CaptureScore(moving.value, victim) else 0)
    + (if checks then 500 else 0)
    + (if moving.Some? && moving.value.kind == King && m.isCastling then 300 else 0)
  }

  /** The score `order_moves` gives `m`, with the en-passant victim sought
      beside the moving pawn, where the corrected move takes it, and the
      check seen by the corrected attack test. The capture term weighs
      exactly the piece the move takes. */
  function MoveScore(b: Board, m: Move, toMove: Color): (s: int)
    requires Scorable(b, m)
    ensures Get(b, m.fromRow, m.fromCol).Some? ==>
      var r := MakeMove(b, m);
      s == CaptureScore(Get(b, m.fromRow, m.fromCol).value, r.captured)
        + (if IsInCheck(r.board, Opposite(toMove)) then 500 else 0)
        + (if Get(b, m.fromRow, m.fromCol).value.kind == King && m.isCastling then 300 else 0)
    ensures Get(b, m.fromRow, m.fromCol).None? ==> s == (if IsInCheck(b, Opposite(toMove)) then 500 else 0)
  {
    ScoreWith(b, m, VictimWith(b, m, m.fromRow), IsInCheck(MakeMove(b, m).board, Opposite(toMove)))
  }

  /** The score as the program writes it: the en-passant victim is sought
      one row beyond the destination, the position after the move is the
      as-written `make_move`'s, and the check is the as-written attack
      test's. Apart from en passant it differs from the corrected score
      only in the check bonus, and only where the two attack tests disagree. */
  function MoveScoreAsWritten(b: Board, m: Move, toMove: Color): (s: int)
    requires Scorable(b, m)
    requires m.isEnPassant && Get(b, m.fromRow, m.fromCol).Some? ==>
      InBounds(m.toRow + Forward(Get(b, m.fromRow, m.fromCol).value.color), m.toCol)
    ensures !m.isEnPassant ==>
      var after := MakeMove(b, m).board;
      s == MoveScore(b, m, toMove)
        - (if IsInCheck(after, Opposite(toMove)) then 500 else 0)
        + (if IsInCheckAsWritten(after, Opposite(toMove)) then 500 else 0)
  {
    var victimRow := match Get(b, m.fromRow, m.fromCol)
      case None => m.toRow
      case Some(p) => if m.isEnPassant then m.toRow + Forward(p.color) else m.toRow;
    var after := MakeMoveAsWritten(b, m).board;
    ScoreWith(b, m, VictimWith(b, m, victimRow), IsInCheckAsWritten(after, Opposite(toMove)))
  }

  /** Black king on (4, 4) and a White pawn on its start square (6, 3). */
  function PawnCheckMovePosition(): Board {
    Set(Set(EmptyBoard(), 4, 4, Some(NewPiece(Black, King))), 6, 3, Some(NewPiece(White, Pawn)))
  }

  /** The pawn's step to (5, 3) checks the king on (4, 4). The corrected
      score adds the check bonus; the program's score looks for White pawns
      on (3, 3) and (3, 5), sees no check and scores the move as quiet. */
  lemma CheckScoredAsQuiet()
    ensures var b := PawnCheckMovePosition();
      var m := Step(6, 3, 5, 3);
      && Scorable(b, m) && m in PawnMoves(b, 6, 3)
      && IsInCheck(MakeMove(b, m).board, Black) && !IsInCheckAsWritten(MakeMove(b, m).board, Black)
      && MoveScore(b, m, White) == 500 && MoveScoreAsWritten(b, m, White) == 0
  {
    var b := PawnCheckMovePosition();
    var m := Step(6, 3, 5, 3);
    assert Get(b, 6, 3) == Some(NewPiece(White, Pawn));
    assert Get(b, 5, 3).None? && Get(b, 4, 3).None?;
    assert PawnStep(6, 3, 5, 3) == [m];
    var a := MakeMove(b, m).board;
    assert Get(a, 5, 3) == Some(Piece(White, Pawn, true));
    assert Get(a, 4, 4) == Some(NewPiece(Black, King)) by { MakeMoveFrame(b, m, 4, 4); }
    forall r, c | InBounds(r, c) && (r, c) != (5, 3) && (r, c) != (4, 4)
      ensures Get(a, r, c).None?
    {
      if (r, c) != (6, 3) {
        MakeMoveFrame(b, m, r, c);
      }
    }
    assert Holds(a, 4, 4, Black, King);
    var k := LocateKing(a, Black).value;
    assert Holds(a, k.0, k.1, Black, King);
    assert k == (4, 4);
    PawnsOnly(a, 4, 4, White);
    assert PawnAttacks(a, 4, 4, White);
  }

  /** A capture by any piece but the king is tried before every move that
      neither captures nor castles: it scores at least 1010, a quiet move at
      most 500. */
  lemma CapturesFirst(b: Board, capture: Move, quiet: Move, toMove: Color)
    requires Scorable(b, capture) && Scorable(b, quiet)
    requires Get(b, capture.fromRow, capture.fromCol).Some?
    requires Get(b, capture.fromRow, capture.fromCol).value.kind != King
    requires MakeMove(b, capture).captured.Some?
    requires MakeMove(b, quiet).captured.None? && !quiet.isCastling
    ensures MoveScore(b, capture, toMove) > MoveScore(b, quiet, toMove)
  {
  }

  /** In the position where White may take en passant from (3, 4) to
      (2, 3), the as-written score looks for the victim on the empty (1, 3)
      and weighs the capture as a quiet move, where the corrected score
      weighs the Black pawn the move takes. */
  lemma EnPassantScoredAsQuiet()
    ensures var b := EnPassantPosition();
      var m := Move(3, 4, 2, 3, None, false, true);
      && Scorable(b, m)
      && VictimWith(b, m, m.toRow + Forward(White)).None?
      && VictimWith(b, m, m.fromRow) == Some(Piece(Black, Pawn, true)) == MakeMove(b, m).captured
      && CaptureScore(Piece(White, Pawn, true), VictimWith(b, m, m.fromRow)) == 1090
      && MoveScoreAsWritten(b, m, White) == 0 && MoveScore(b, m, White) == 1090
  {
    var b := EnPassantPosition();
    assert Get(b, 3, 4) == Some(Piece(White, Pawn, true));
    assert Get(b, 3, 3) == Some(Piece(Black, Pawn, true));
    assert Get(b, 1, 3).None?;
    assert Get(b, 2, 3).None?;
  }

  // ---------------------------------------------------------------------------
  // order_moves

  /** Each move paired with its score, in the given order. */
  function ScoreAll(b: Board, ms: seq<Move>, toMove: Color): (xs: seq<Scored>)
    requires forall m <- ms :: Scorable(b, m)
    ensures |xs| == |ms|
    ensures forall i :: 0 <= i < |ms| ==> xs[i] == Scored(MoveScore(b, ms[i], toMove), ms[i])
  {
    if |ms| == 0 then [] else [Scored(MoveScore(b, ms[0], toMove), ms[0])] + ScoreAll(b, ms[1..], toMove)
  }

  /** The moves of `ms` that score `s`, in their order. */
  function Tied(b: Board, ms: seq<Move>, toMove: Color, s: int): seq<Move>
    requires forall m <- ms :: Scorable(b, m)
  {
    if |ms| == 0 then []
    else (if MoveScore(b, ms[0], toMove) == s then [ms[0]] else []) + Tied(b, ms[1..], toMove, s)
  }

  /** Every entry carries its own move's score. */
  predicate Consistent(b: Board, xs: seq<Scored>, toMove: Color) {
    forall x <- xs :: Scorable(b, x.move) && x.score == MoveScore(b, x.move, toMove)
  }

  lemma {:induction false} TiedOfScored(b: Board, xs: seq<Scored>, toMove: Color, s: int)
    requires Consistent(b, xs, toMove)
    ensures Tied(b, MovesOf(xs), toMove, s) == MovesOf(WithScore(xs, s))
  {
    if |xs| > 0 {
      assert xs[0] in xs;
      TiedOfScored(b, xs[1..], toMove, s);
      assert MovesOf(xs)[1..] == MovesOf(xs[1..]);
      if xs[0].score == s {
        assert MovesOf([xs[0]] + WithScore(xs[1..], s)) == [xs[0].move] + MovesOf(WithScore(xs[1..], s));
      }
    }
  }

  lemma {:induction false} MovesOfScoreAll(b: Board, ms: seq<Move>, toMove: Color)
    requires forall m <- ms :: Scorable(b, m)
    ensures MovesOf(ScoreAll(b, ms, toMove)) == ms
    ensures Consistent(b, ScoreAll(b, ms, toMove), toMove)
  {
    var xs := ScoreAll(b, ms, toMove);
    forall x | x in xs
      ensures Scorable(b, x.move) && x.score == MoveScore(b, x.move, toMove)
    {
      var i :| 0 <= i < |xs| && xs[i] == x;
      assert ms[i] in ms;
    }
  }

  lemma {:induction false} InsertMoves(x: Scored, ys: seq<Scored>)
    ensures multiset(MovesOf(Insert(x, ys))) == multiset(MovesOf(ys)) + multiset{x.move}
  {
    if |ys| > 0 && ys[0].score > x.score {
      InsertMoves(x, ys[1..]);
      assert MovesOf(Insert(x, ys)) == [ys[0].move] + MovesOf(Insert(x, ys[1..]));
      assert MovesOf(ys) == [ys[0].move] + MovesOf(ys[1..]);
    } else {
      assert MovesOf(Insert(x, ys)) == [x.move] + MovesOf(ys);
    }
  }

  /** Sorting rearranges the moves: the same moves, each as often. */
  lemma {:induction false} SortMoves(xs: seq<Scored>)
    ensures multiset(MovesOf(SortDesc(xs))) == multiset(MovesOf(xs))
  {
    if |xs| > 0 {
      SortMoves(xs[1..]);
      InsertMoves(xs[0], SortDesc(xs[1..]));
      assert MovesOf(xs) == [xs[0].move] + MovesOf(xs[1..]);
    }
  }

  lemma SortedConsistent(b: Board, xs: seq<Scored>, toMove: Color)
    requires Consistent(b, xs, toMove)
    ensures Consistent(b, SortDesc(xs), toMove)
  {
    forall x | x in SortDesc(xs)
      ensures Scorable(b, x.move) && x.score == MoveScore(b, x.move, toMove)
    {
      assert x in multiset(SortDesc(xs));
    }
  }

  lemma SortedScores(b: Board, xs: seq<Scored>, toMove: Color)
    requires Consistent(b, xs, toMove) && Descending(xs)
    ensures forall m <- MovesOf(xs) :: Scorable(b, m)
    ensures forall i, j :: 0 <= i < j < |xs| ==>
      MoveScore(b, MovesOf(xs)[i], toMove) >= MoveScore(b, MovesOf(xs)[j], toMove)
  {
    forall i, j | 0 <= i < j < |xs|
      ensures MoveScore(b, MovesOf(xs)[i], toMove) >= MoveScore(b, MovesOf(xs)[j], toMove)
    {
      assert xs[i] in xs && xs[j] in xs;
    }
    forall m | m in MovesOf(xs)
      ensures Scorable(b, m)
    {
      var i :| 0 <= i < |xs| && MovesOf(xs)[i] == m;
      assert xs[i] in xs;
    }
  }

  lemma OrderedMoves(b: Board, ms: seq<Move>, toMove: Color)
    requires forall m <- ms :: Scorable(b, m)
    ensures var r := MovesOf(SortDesc(ScoreAll(b, ms, toMove)));
      && multiset(r) == multiset(ms)
      && (forall m <- r :: Scorable(b, m))
      && (forall i, j :: 0 <= i < j < |r| ==> MoveScore(b, r[i], toMove) >= MoveScore(b, r[j], toMove))
      && (forall s :: Tied(b, r, toMove, s) == Tied(b, ms, toMove, s))
  {
    var xs := ScoreAll(b, ms, toMove);
    var sorted := SortDesc(xs);
    MovesOfScoreAll(b, ms, toMove);
    SortMoves(xs);
    SortDescending(xs);
    SortedConsistent(b, xs, toMove);
    SortedScores(b, sorted, toMove);
    forall s
      ensures Tied(b, MovesOf(sorted), toMove, s) == Tied(b, ms, toMove, s)
    {
      SortStable(xs, s);
      TiedOfScored(b, sorted, toMove, s);
      TiedOfScored(b, xs, toMove, s);
    }
  }

  /** `order_moves`: the moves sorted by score, highest first, ties in the
      order they came; the same moves, each as often as before. */
  function OrderMoves(b: Board, ms: seq<Move>, toMove: Color): (r: seq<Move>)
    requires forall m <- ms :: Scorable(b, m)
    ensures multiset(r) == multiset(ms)
    ensures forall m <- r :: Scorable(b, m)
    ensures forall i, j :: 0 <= i < j < |r| ==> MoveScore(b, r[i], toMove) >= MoveScore(b, r[j], toMove)
    ensures forall s :: Tied(b, r, toMove, s) == Tied(b, ms, toMove, s)
  {
    OrderedMoves(b, ms, toMove);
    MovesOf(SortDesc(ScoreAll(b, ms, toMove)))
  }
}
