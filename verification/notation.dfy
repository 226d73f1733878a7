/** Colours, piece kinds, moves and the square/move text notation of the
    chess program (chess_game/utils.py). Squares are (row, col) pairs with row
    0 at Black's back rank, so rank = 8 - row and file = "abcdefgh"[col]. */
module Notation {
  import opened Common

  datatype Color = White | Black

  /** `Color.opposite`. */
  function Opposite(c: Color): (r: Color)
    ensures r != c
  {
    if c == White then Black else White
  }

  lemma OppositeInvolution(c: Color)
    ensures Opposite(Opposite(c)) == c
  {
  }

  datatype PieceKind = King | Queen | Rook | Bishop | Knight | Pawn

  /** The value of the `PieceType` enum: one upper-case letter per kind. */
  function KindLetter(k: PieceKind): (ch: char)
    ensures 'A' <= ch <= 'Z'
  {
    match k
    case King => 'K'
    case Queen => 'Q'
    case Rook => 'R'
    case Bishop => 'B'
    case Knight => 'N'
    case Pawn => 'P'
  }

  lemma KindLetterInjective(a: PieceKind, b: PieceKind)
    ensures KindLetter(a) == KindLetter(b) <==> a == b
  {
  }

  /** An immutable move. The flags default to false and the promotion to
      none in the program; `Step` builds such a plain move. */
  datatype Move = Move(
    fromRow: int, fromCol: int, toRow: int, toCol: int,
    promotion: Option<PieceKind>, isCastling: bool, isEnPassant: bool)

  function Step(fromRow: int, fromCol: int, toRow: int, toCol: int): Move {
    Move(fromRow, fromCol, toRow, toCol, None, false, false)
  }

  const FileLabels: string := "abcdefgh"

  /** The text of a square: a file letter in either case, then a rank digit 1..8. */
  predicate IsSquareText(s: string) {
    |s| == 2 && ToLower(s[0]) in FileLabels && '1' <= s[1] <= '8'
  }

  /** `square_to_indices`: the (row, col) of a square such as "e4", or None. */
  function SquareToIndices(square: string): (r: Option<(int, int)>)
    ensures r.Some? <==> IsSquareText(square)
    ensures r.Some? ==> 0 <= r.value.0 < 8 && 0 <= r.value.1 < 8
  {
    if |square| != 2 then None
    else
      var fileChar := ToLower(square[0]);
      var rankChar := square[1];
      if fileChar !in FileLabels then None
      else if !IsDigit(rankChar) then None
      else
        var rank := rankChar as int - '0' as int;
        if rank < 1 || rank > 8 then None
        else
          var col := fileChar as int - 'a' as int;
          Some((8 - rank, col))
  }

  /** `indices_to_square`. A negative column counts from the end of the file
      table, as a Python index does; a column below -8 or above 7 is outside
      the table, where the program raises an error, so it is excluded here. */
  function IndicesToSquare(row: int, col: int): (s: string)
    requires -8 <= col < 8
    ensures |s| >= 2 && s[0] == FileLabels[col % 8]
    ensures s[1..] == IntToString(8 - row)
  {
    [FileLabels[if col < 0 then col + 8 else col]] + IntToString(8 - row)
  }

  /** Every on-board square survives the trip to text and back. */
  lemma SquareRoundTrip(row: int, col: int)
    requires 0 <= row < 8 && 0 <= col < 8
    ensures SquareToIndices(IndicesToSquare(row, col)) == Some((row, col))
  {
    var s := IndicesToSquare(row, col);
    assert s == [FileLabels[col], DigitChar(8 - row)];
  }

  /** Every accepted square text comes back lower-cased. */
  lemma TextRoundTrip(square: string)
    requires SquareToIndices(square).Some?
    ensures var rc := SquareToIndices(square).value;
      IndicesToSquare(rc.0, rc.1) == LowerString(square)
  {
    var rc := SquareToIndices(square).value;
    var rank := square[1] as int - '0' as int;
    assert IntToString(8 - rc.0) == [DigitChar(rank)];
    assert DigitChar(rank) == square[1];
    assert FileLabels[rc.1] == ToLower(square[0]);
    LowerStringAt(square);
    assert LowerString(square) == [ToLower(square[0]), ToLower(square[1])];
  }

  // ---------------------------------------------------------------------------
  // Move text

  predicate IsDash(ch: char) {
    ch == '-' || ch == '\U{2013}' || ch == '\U{2014}'
  }

  /** Replaces the hyphen, en dash and em dash by spaces. */
  function DashesToSpaces(s: string): (r: string)
    ensures |r| == |s|
    ensures forall i :: 0 <= i < |s| ==> r[i] == (if IsDash(s[i]) then ' ' else s[i])
  {
    if |s| == 0 then "" else [if IsDash(s[0]) then ' ' else s[0]] + DashesToSpaces(s[1..])
  }

  /** The tokens `parse_move_input` works on. */
  function MoveWords(text: string): seq<string> {
    Words(DashesToSpaces(LowerString(Strip(text))))
  }

  const PromotionTexts: set<string> := {"q", "r", "b", "n"}

  /** The tokens after a lone four-character token has been cut into two squares. */
  function SplitLoneToken(words: seq<string>): (parts: seq<string>)
    ensures |words| == 1 && |words[0]| == 4 ==> |parts| == 2 && parts[0] + parts[1] == words[0]
    ensures !(|words| == 1 && |words[0]| == 4) ==> parts == words
  {
    if |words| == 1 && |words[0]| == 4 then [words[0][..2], words[0][2..]] else words
  }

  /** The checks `parse_move_input` makes on its tokens. */
  function CheckParts(parts: seq<string>): (r: Option<(string, string, Option<string>)>)
    ensures r.Some? ==> |parts| == 2 || |parts| == 3
    ensures r.Some? ==> r.value.0 == parts[0] && r.value.1 == parts[1]
    ensures r.Some? ==> r.value.2 == (if |parts| == 3 then Some(parts[2]) else None)
    ensures r.Some? ==> SquareToIndices(r.value.0).Some? && SquareToIndices(r.value.1).Some?
    ensures r.Some? && r.value.2.Some? ==> r.value.2.value in PromotionTexts
    ensures ((|parts| == 2 || |parts| == 3) && SquareToIndices(parts[0]).Some? && SquareToIndices(parts[1]).Some?
             && (|parts| == 3 ==> parts[2] in PromotionTexts)) ==> r.Some?
  {
    if |parts| != 2 && |parts| != 3 then None
    else
      var promo := if |parts| == 3 then Some(parts[2]) else None;
      if SquareToIndices(parts[0]).None? || SquareToIndices(parts[1]).None? then None
      else if promo.Some? && promo.value !in PromotionTexts then None
      else Some((parts[0], parts[1], promo))
  }

  /** `parse_move_input`: origin text, destination text and optional promotion
      letter, or None. */
  function ParseMoveInput(text: string): (r: Option<(string, string, Option<string>)>)
    ensures Strip(text) == "" ==> r.None?
    ensures r.Some? ==> SquareToIndices(r.value.0).Some? && SquareToIndices(r.value.1).Some?
    ensures r.Some? && r.value.2.Some? ==> r.value.2.value in PromotionTexts
    ensures r.Some? ==>
      var ws := MoveWords(text);
      || (|ws| == 1 && |ws[0]| == 4 && r.value.0 + r.value.1 == ws[0] && r.value.2.None?)
      || (|ws| == 2 && r.value.0 == ws[0] && r.value.1 == ws[1] && r.value.2.None?)
      || (|ws| == 3 && r.value.0 == ws[0] && r.value.1 == ws[1] && r.value.2 == Some(ws[2]))
    ensures var ws := MoveWords(text);
      ((|ws| == 2 || |ws| == 3) && IsSquareText(ws[0]) && IsSquareText(ws[1]) && (|ws| == 3 ==> ws[2] in PromotionTexts))
      ==> r == Some((ws[0], ws[1], if |ws| == 3 then Some(ws[2]) else None))
    ensures var ws := MoveWords(text);
      (|ws| == 1 && |ws[0]| == 4 && IsSquareText(ws[0][..2]) && IsSquareText(ws[0][2..]))
      ==> r == Some((ws[0][..2], ws[0][2..], None))
  {
    ParsesWords(text);
    ParseCleaned(LowerString(Strip(text)))
  }

  /** The parser reads the tokens of the cleaned text; blank text has none. */
  lemma ParsesWords(text: string)
    ensures ParseCleaned(LowerString(Strip(text))) == ParseWords(MoveWords(text))
  {
    var cleaned := LowerString(Strip(text));
    if cleaned == "" {
      assert DashesToSpaces(cleaned) == "";
      assert Words("") == [];
    }
  }

  /** The parser after stripping and lower-casing. */
  function ParseCleaned(cleaned: string): Option<(string, string, Option<string>)> {
    if cleaned == "" then None
    else ParseWords(Words(DashesToSpaces(cleaned)))
  }

  /** The parser once the text is cut into tokens. */
  function ParseWords(words: seq<string>): Option<(string, string, Option<string>)> {
    CheckParts(SplitLoneToken(words))
  }

  /** `format_move_san_like`: origin, destination, lower-case promotion letter
      if any, then the suffix. */
  function FormatMoveSanLike(fromSq: string, toSq: string, promotion: Option<PieceKind>, suffix: string): (r: string)
    ensures |r| == |fromSq| + |toSq| + (if promotion.Some? then 1 else 0) + |suffix|
    ensures r[..|fromSq|] == fromSq && r[|fromSq|..|fromSq| + |toSq|] == toSq
    ensures r[|r| - |suffix|..] == suffix
    ensures promotion.Some? ==> r[|fromSq| + |toSq|] == ToLower(KindLetter(promotion.value))
  {
    var parts := fromSq + toSq + (if promotion.Some? then [ToLower(KindLetter(promotion.value))] else "");
    parts + suffix
  }

  // ---------------------------------------------------------------------------
  // Formatting and parsing agree on plain moves

  lemma {:induction false} WordLengthOfWord(w: string)
    requires NoSpace(w)
    ensures WordLength(w) == |w|
  {
    if |w| > 0 {
      WordLengthOfWord(w[1..]);
    }
  }

  lemma WordsOfWord(w: string)
    requires |w| > 0 && NoSpace(w)
    ensures Words(w) == [w]
  {
    assert TrimLeft(w) == w;
    WordLengthOfWord(w);
    assert w[..|w|] == w;
    assert TrimLeft(w[|w|..]) == "";
  }

  /** A non-empty word with no space, capital or dash passes the cleaning
      steps of the parser unchanged. */
  lemma CleanWord(w: string)
    requires |w| > 0 && NoSpace(w)
    requires forall i :: 0 <= i < |w| ==> !('A' <= w[i] <= 'Z') && !IsDash(w[i])
    ensures MoveWords(w) == [w]
    ensures ParseMoveInput(w) == ParseWords([w])
  {
    assert TrimLeft(w) == w;
    assert TrimRight(w) == w;
    LowerStringAt(w);
    assert LowerString(w) == w;
    assert DashesToSpaces(w) == w;
    WordsOfWord(w);
  }

  predicate IsLowerSquareText(s: string) {
    |s| == 2 && s[0] in FileLabels && '1' <= s[1] <= '8'
  }

  lemma LowerSquareText(s: string)
    requires IsLowerSquareText(s)
    ensures IsSquareText(s) && !('A' <= s[0] <= 'Z') && !('A' <= s[1] <= 'Z')
    ensures !IsSpace(s[0]) && !IsSpace(s[1]) && !IsDash(s[0]) && !IsDash(s[1])
  {
  }

  /** A token made of two square texts parses as those squares. */
  lemma ParsePair(a: string, b: string)
    requires IsSquareText(a) && IsSquareText(b)
    ensures ParseWords([a + b]) == Some((a, b, None))
  {
    var t := a + b;
    assert t[..2] == a && t[2..] == b;
    assert SplitLoneToken([t]) == [a, b];
  }

  /** A move formatted without promotion or suffix parses back to its two squares. */
  lemma FormatThenParse(fromSq: string, toSq: string)
    requires IsLowerSquareText(fromSq) && IsLowerSquareText(toSq)
    ensures ParseMoveInput(FormatMoveSanLike(fromSq, toSq, None, "")) == Some((fromSq, toSq, None))
  {
    var t := FormatMoveSanLike(fromSq, toSq, None, "");
    assert t == fromSq + toSq;
    LowerSquareText(fromSq);
    LowerSquareText(toSq);
    assert t == [fromSq[0], fromSq[1], toSq[0], toSq[1]];
    CleanWord(t);
    ParsePair(fromSq, toSq);
  }

  /** A formatted promotion is five characters with no separator, which the
      parser does not accept: the two notations differ on promotions. */
  lemma FormattedPromotionIsRejected(fromSq: string, toSq: string, k: PieceKind)
    requires IsLowerSquareText(fromSq) && IsLowerSquareText(toSq)
    ensures ParseMoveInput(FormatMoveSanLike(fromSq, toSq, Some(k), "")) == None
  {
    var t := FormatMoveSanLike(fromSq, toSq, Some(k), "");
    assert t == fromSq + toSq + [ToLower(KindLetter(k))];
    CleanWord(t);
    assert SplitLoneToken([t]) == [t];
  }
}
