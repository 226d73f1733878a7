/** Attack detection (chess_game/game_logic.py, `locate_king`,
    `is_square_attacked`, `is_in_check`) and the geometry of rays shared with
    the move generator. */
module Attacks {
  import opened Common
  import opened Notation
  import opened Pieces
  import opened Chessboard

  /** The row step of a pawn: White pawns start on row 6 and move towards row 0. */
  function Forward(c: Color): (d: int)
    ensures d == -1 || d == 1
    ensures (d == -1) == (c == White)
  {
    if c == White then -1 else 1
  }

  /** A piece of the given colour and kind stands on (row, col). */
  predicate Holds(b: Board, row: int, col: int, color: Color, kind: PieceKind) {
    InBounds(row, col) && Get(b, row, col).Some?
    && Get(b, row, col).value.color == color && Get(b, row, col).value.kind == kind
  }

  // ---------------------------------------------------------------------------
  // locate_king

  function LocateKingFrom(b: Board, color: Color, i: nat): (r: Option<(Coord, Coord)>)
    requires i <= 64
    ensures r.None? ==> forall j :: i <= j < 64 ==> !Holds(b, j / 8, j % 8, color, King)
    ensures r.Some? ==> i <= r.value.0 * 8 + r.value.1 < 64 && Holds(b, r.value.0, r.value.1, color, King)
    ensures r.Some? ==> forall j :: i <= j < r.value.0 * 8 + r.value.1 ==> !Holds(b, j / 8, j % 8, color, King)
    decreases 64 - i
  {
    if i == 64 then None
    else if Holds(b, i / 8, i % 8, color, King) then Some((i / 8, i % 8))
    else LocateKingFrom(b, color, i + 1)
  }

  /** `locate_king`: the first king of that colour in row-major order, or None
      when the colour has no king. */
  function LocateKing(b: Board, color: Color): (r: Option<(Coord, Coord)>)
    ensures r.None? <==> forall row, col :: InBounds(row, col) ==> !Holds(b, row, col, color, King)
    ensures r.Some? ==> Holds(b, r.value.0, r.value.1, color, King)
    ensures r.Some? ==> forall row, col :: InBounds(row, col) && row * 8 + col < r.value.0 * 8 + r.value.1 ==>
      !Holds(b, row, col, color, King)
  {
    var r := LocateKingFrom(b, color, 0);
    forall row, col | InBounds(row, col)
      ensures r.None? ==> !Holds(b, row, col, color, King)
      ensures r.Some? && row * 8 + col < r.value.0 * 8 + r.value.1 ==> !Holds(b, row, col, color, King)
    {
      SquareIndex(row, col);
    }
    r
  }

  // ---------------------------------------------------------------------------
  // Rays

  /** A king or queen step: each component in -1..1 and not both zero. */
  predicate IsDirection(dr: int, dc: int) {
    -1 <= dr <= 1 && -1 <= dc <= 1 && (dr != 0 || dc != 0)
  }

  function Reach(x: int, d: int): int {
    if d > 0 then 8 - x else if d < 0 then x + 1 else 0
  }

  /** Shrinks with every step along a direction while the walk is on the board. */
  function RayMeasure(r: int, c: int, dr: int, dc: int): int {
    Reach(r, dr) + Reach(c, dc)
  }

  /** The first occupied square met walking from (r, c) by (dr, dc) before the
      walk leaves the board. */
  function RayHit(b: Board, r: int, c: int, dr: int, dc: int): (hit: Option<(int, int)>)
    requires IsDirection(dr, dc)
    ensures hit.Some? ==> InBounds(hit.value.0, hit.value.1) && Get(b, hit.value.0, hit.value.1).Some?
    decreases RayMeasure(r, c, dr, dc)
  {
    if !InBounds(r, c) then None
    else if Get(b, r, c).Some? then Some((r, c))
    else RayHit(b, r + dr, c + dc, dr, dc)
  }

  /** (r, c) is an empty square of the board. */
  predicate EmptyAt(b: Board, r: int, c: int) {
    InBounds(r, c) && Get(b, r, c).None?
  }

  /** The first `k` squares of the walk from (r, c) are on the board and empty. */
  predicate Empties(b: Board, r: int, c: int, dr: int, dc: int, k: nat)
    decreases k
  {
    k == 0 || (EmptyAt(b, r, c) && Empties(b, r + dr, c + dc, dr, dc, k - 1))
  }

  /** The walk read from its other end: one more empty square at step `k`. */
  lemma {:induction false} EmptiesSnoc(b: Board, r: int, c: int, dr: int, dc: int, k: nat)
    requires IsDirection(dr, dc)
    ensures Empties(b, r, c, dr, dc, k + 1) <==>
      Empties(b, r, c, dr, dc, k) && EmptyAt(b, r + k * dr, c + k * dc)
    decreases k
  {
    if k > 0 {
      EmptiesSnoc(b, r + dr, c + dc, dr, dc, k - 1);
      assert r + dr + (k - 1) * dr == r + k * dr;
      assert c + dc + (k - 1) * dc == c + k * dc;
    }
  }

  /** The walk meets its first piece `k` steps from its start exactly when that
      square is occupied and the `k` squares before it are empty. */
  lemma {:induction false} RayHitWalk(b: Board, r: int, c: int, dr: int, dc: int, k: nat)
    requires IsDirection(dr, dc)
    ensures RayHit(b, r, c, dr, dc) == Some((r + k * dr, c + k * dc)) <==>
      InBounds(r + k * dr, c + k * dc) && Get(b, r + k * dr, c + k * dc).Some?
      && Empties(b, r, c, dr, dc, k)
    decreases k
  {
    if k > 0 {
      assert (r + k * dr, c + k * dc) != (r, c);
      RayHitWalk(b, r + dr, c + dc, dr, dc, k - 1);
      assert r + dr + (k - 1) * dr == r + k * dr;
      assert c + dc + (k - 1) * dc == c + k * dc;
    }
  }

  /** A piece met by the walk lies some number of steps along it. */
  lemma RayHitSteps(b: Board, r: int, c: int, dr: int, dc: int) returns (k: nat)
    requires IsDirection(dr, dc) && RayHit(b, r, c, dr, dc).Some?
    ensures RayHit(b, r, c, dr, dc) == Some((r + k * dr, c + k * dc))
    decreases RayMeasure(r, c, dr, dc)
  {
    if Get(b, r, c).Some? {
      k := 0;
    } else {
      var k1 := RayHitSteps(b, r + dr, c + dc, dr, dc);
      k := k1 + 1;
      assert r + dr + k1 * dr == r + k * dr;
      assert c + dc + k1 * dc == c + k * dc;
    }
  }

  lemma FarEnd(x: int, d: int, k: int)
    ensures x + d + (k - 2) * d == x + (k - 1) * d
    ensures x + (k - 1) * d + (k - 1) * (-d) == x
  {
  }

  /** The same `k` empty squares read from the far end backwards. */
  lemma {:induction false} EmptiesReverse(b: Board, r: int, c: int, dr: int, dc: int, k: nat)
    requires IsDirection(dr, dc)
    ensures Empties(b, r, c, dr, dc, k) <==>
      Empties(b, r + (k - 1) * dr, c + (k - 1) * dc, -dr, -dc, k)
    decreases k
  {
    if k > 0 {
      var r2, c2 := r + (k - 1) * dr, c + (k - 1) * dc;
      FarEnd(r, dr, k);
      FarEnd(c, dc, k);
      EmptiesReverse(b, r + dr, c + dc, dr, dc, k - 1);
      EmptiesSnoc(b, r2, c2, -dr, -dc, k - 1);
      var rest := Empties(b, r + dr, c + dc, dr, dc, k - 1);
      var restBack := Empties(b, r2, c2, -dr, -dc, k - 1);
      assert rest == restBack;
      assert Empties(b, r2, c2, -dr, -dc, k) == (restBack && EmptyAt(b, r, c));
      assert Empties(b, r, c, dr, dc, k) == (EmptyAt(b, r, c) && Empties(b, r + dr, c + dc, dr, dc, k - 1));
    }
  }

  // ---------------------------------------------------------------------------
  // is_square_attacked

  const KnightOffsets: seq<(int, int)> := [(-2, -1), (-2, 1), (-1, -2), (-1, 2), (1, -2), (1, 2), (2, -1), (2, 1)]

  /** The eight neighbours, rows then columns in the order -1, 0, 1. */
  const KingOffsets: seq<(int, int)> := [(-1, -1), (-1, 0), (-1, 1), (0, -1), (0, 1), (1, -1), (1, 0), (1, 1)]

  const RookDirections: seq<(int, int)> := [(-1, 0), (1, 0), (0, -1), (0, 1)]

  const BishopDirections: seq<(int, int)> := [(-1, -1), (-1, 1), (1, -1), (1, 1)]

  predicate AllDirections(dirs: seq<(int, int)>) {
    forall d <- dirs :: IsDirection(d.0, d.1)
  }

  /** A piece of colour `side` and kind `kind` stands one offset away from (row, col). */
  predicate OffsetAttack(b: Board, row: int, col: int, offsets: seq<(int, int)>, side: Color, kind: PieceKind) {
    exists i :: 0 <= i < |offsets| && Holds(b, row + offsets[i].0, col + offsets[i].1, side, kind)
  }

  /** The first piece along direction `d` from (row, col) has colour `side` and a kind in `kinds`. */
  predicate RayAttacker(b: Board, row: int, col: int, d: (int, int), side: Color, kinds: set<PieceKind>)
    requires IsDirection(d.0, d.1)
  {
    var hit := RayHit(b, row + d.0, col + d.1, d.0, d.1);
    hit.Some? && Get(b, hit.value.0, hit.value.1).value.color == side
    && Get(b, hit.value.0, hit.value.1).value.kind in kinds
  }

  predicate RayAttack(b: Board, row: int, col: int, dirs: seq<(int, int)>, side: Color, kinds: set<PieceKind>)
    requires AllDirections(dirs)
  {
    exists i :: 0 <= i < |dirs| && RayAttacker(b, row, col, dirs[i], side, kinds)
  }

  /** A pawn of colour `side` stands diagonally behind (row, col), from where it
      captures forwards onto it. */
  predicate PawnAttacks(b: Board, row: int, col: int, side: Color) {
    Holds(b, row - Forward(side), col - 1, side, Pawn) || Holds(b, row - Forward(side), col + 1, side, Pawn)
  }

  /** The pawn test as the program writes it: it looks diagonally in FRONT of
      (row, col), from where a pawn of colour `side` moves away from the square. */
  predicate PawnAttacksAsWritten(b: Board, row: int, col: int, side: Color) {
    Holds(b, row + Forward(side), col - 1, side, Pawn) || Holds(b, row + Forward(side), col + 1, side, Pawn)
  }

  /** The tests other than the pawn's, in the order the program makes them. */
  predicate PieceAttacks(b: Board, row: int, col: int, side: Color) {
    || OffsetAttack(b, row, col, KnightOffsets, side, Knight)
    || RayAttack(b, row, col, RookDirections, side, {Rook, Queen})
    || RayAttack(b, row, col, BishopDirections, side, {Bishop, Queen})
    || OffsetAttack(b, row, col, KingOffsets, side, King)
  }

  /** Some piece of `side` stands on the board. */
  predicate Fielded(b: Board, side: Color) {
    exists row, col :: 0 <= row < 8 && 0 <= col < 8 && Get(b, row, col).Some? && Get(b, row, col).value.color == side
  }

  lemma HolderFielded(b: Board, row: int, col: int, side: Color, kind: PieceKind)
    requires Holds(b, row, col, side, kind)
    ensures Fielded(b, side)
  {
  }

  /** Each test that finds an attack finds a piece of the attacking side. */
  lemma AttackerFielded(b: Board, row: int, col: int, side: Color)
    ensures PawnAttacks(b, row, col, side) || PawnAttacksAsWritten(b, row, col, side) || PieceAttacks(b, row, col, side)
      ==> Fielded(b, side)
  {
    PawnAttackerFielded(b, row, col, side);
    PieceAttackerFielded(b, row, col, side);
  }

  lemma PawnAttackerFielded(b: Board, row: int, col: int, side: Color)
    ensures PawnAttacks(b, row, col, side) || PawnAttacksAsWritten(b, row, col, side) ==> Fielded(b, side)
  {
    var f := Forward(side);
    if Holds(b, row - f, col - 1, side, Pawn) {
      HolderFielded(b, row - f, col - 1, side, Pawn);
    } else if Holds(b, row - f, col + 1, side, Pawn) {
      HolderFielded(b, row - f, col + 1, side, Pawn);
    } else if Holds(b, row + f, col - 1, side, Pawn) {
      HolderFielded(b, row + f, col - 1, side, Pawn);
    } else if Holds(b, row + f, col + 1, side, Pawn) {
      HolderFielded(b, row + f, col + 1, side, Pawn);
    }
  }

  lemma PieceAttackerFielded(b: Board, row: int, col: int, side: Color)
    ensures PieceAttacks(b, row, col, side) ==> Fielded(b, side)
  {
    OffsetAttackerFielded(b, row, col, KnightOffsets, side, Knight);
    OffsetAttackerFielded(b, row, col, KingOffsets, side, King);
    RayAttackFielded(b, row, col, RookDirections, side, {Rook, Queen});
    RayAttackFielded(b, row, col, BishopDirections, side, {Bishop, Queen});
  }

  lemma OffsetAttackerFielded(b: Board, row: int, col: int, offsets: seq<(int, int)>, side: Color, kind: PieceKind)
    ensures OffsetAttack(b, row, col, offsets, side, kind) ==> Fielded(b, side)
  {
    if OffsetAttack(b, row, col, offsets, side, kind) {
      var i :| 0 <= i < |offsets| && Holds(b, row + offsets[i].0, col + offsets[i].1, side, kind);
      HolderFielded(b, row + offsets[i].0, col + offsets[i].1, side, kind);
    }
  }

  lemma RayAttackFielded(b: Board, row: int, col: int, dirs: seq<(int, int)>, side: Color, kinds: set<PieceKind>)
    requires AllDirections(dirs)
    ensures RayAttack(b, row, col, dirs, side, kinds) ==> Fielded(b, side)
  {
    if RayAttack(b, row, col, dirs, side, kinds) {
      var i :| 0 <= i < |dirs| && RayAttacker(b, row, col, dirs[i], side, kinds);
      RayAttackerFielded(b, row, col, dirs[i], side, kinds);
    }
  }

  lemma RayAttackerFielded(b: Board, row: int, col: int, d: (int, int), side: Color, kinds: set<PieceKind>)
    requires IsDirection(d.0, d.1) && RayAttacker(b, row, col, d, side, kinds)
    ensures Fielded(b, side)
  {
    var hit := RayHit(b, row + d.0, col + d.1, d.0, d.1).value;
    assert InBounds(hit.0, hit.1) && Get(b, hit.0, hit.1).Some? && Get(b, hit.0, hit.1).value.color == side;
  }

  /** `is_square_attacked`, with the pawn test corrected: an attack always
      has an attacker of `side` on the board. */
  function IsSquareAttacked(b: Board, row: int, col: int, side: Color): (r: bool)
    ensures r ==> Fielded(b, side)
  {
    AttackerFielded(b, row, col, side);
    PawnAttacks(b, row, col, side) || PieceAttacks(b, row, col, side)
  }

  /** `is_square_attacked` as the program writes it. It also needs an
      attacker on the board, and it parts from the corrected test only over
      pawns: every attack it misses is a pawn's from diagonally behind the
      square, every attack it adds a pawn's from diagonally in front. */
  function IsSquareAttackedAsWritten(b: Board, row: int, col: int, side: Color): (r: bool)
    ensures r ==> Fielded(b, side)
    ensures IsSquareAttacked(b, row, col, side) && !r ==> PawnAttacks(b, row, col, side)
    ensures r && !IsSquareAttacked(b, row, col, side) ==> PawnAttacksAsWritten(b, row, col, side)
  {
    AttackerFielded(b, row, col, side);
    PawnAttacksAsWritten(b, row, col, side) || PieceAttacks(b, row, col, side)
  }

  /** `is_square_attacked`'s caller `is_in_check`: the colour's first king
      stands on an attacked square; a colour without a king is never in check. */
  function IsInCheck(b: Board, color: Color): (r: bool)
    ensures r ==> LocateKing(b, color).Some? && Fielded(b, Opposite(color))
  {
    match LocateKing(b, color)
    case None => false
    case Some(k) => IsSquareAttacked(b, k.0, k.1, Opposite(color))
  }

  /** `is_in_check` as the program writes it, through its pawn test: it
      misses a check only when a pawn gives it. */
  function IsInCheckAsWritten(b: Board, color: Color): (r: bool)
    ensures IsInCheck(b, color) && !r ==>
      var k := LocateKing(b, color).value;
      PawnAttacks(b, k.0, k.1, Opposite(color))
  {
    match LocateKing(b, color)
    case None => false
    case Some(k) => IsSquareAttackedAsWritten(b, k.0, k.1, Opposite(color))
  }
}
