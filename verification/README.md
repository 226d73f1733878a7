# Python-Powered Chess Game, modelled in Dafny

This project models the rules engine and the computer opponent of a small
chess program written in Python, and proves properties of the model. It covers:

- the board: the 8×8 grid, the side to move, castling rights, the en-passant
  target and the two clocks;
- move generation for every piece, castling and en passant included;
- playing a move (`make_move`) and filtering out moves that leave the king in
  check;
- the game session (`Game`): applying and undoing moves, the move log, the
  captured-piece lists, repetition counting, and the checkmate, stalemate,
  fifty-move and threefold-repetition results;
- the computer opponent: static evaluation, move ordering, alpha-beta
  minimax and the choice of a move at each difficulty level;
- the pure part of the learning store: crediting opening lines, filing
  blunders and tactics, suggesting an opening continuation and the
  penalty/bonus lookups.

Boards are immutable values. Every operation that mutates a `Board` or a
`Game` in Python is a function here that returns the new value. Each module
follows one part of the program:

| module | file | models |
|---|---|---|
| `Common` | common.dfy | options, decimal text of numbers, joining and splitting strings, `strip`/`split` on ASCII white space and `lower` on ASCII letters |
| `Notation` | notation.dfy | `chess_game/utils.py`: colours, piece kinds, moves, square names, move-text parsing |
| `Pieces` | pieces.dfy | `chess_game/pieces.py`: pieces, values, letters |
| `Chessboard` | board.dfy | `chess_game/board.py`: the board, initial set-up, FEN and the board key |
| `Attacks` | attacks.dfy | `locate_king`, `is_square_attacked`, `is_in_check` |
| `MoveGen` | movegen.dfy | the pseudo-legal move generators |
| `AttackMap` | attackmap.dfy | how the attack test relates to the move generator |
| `Apply` | makemove.dfy | `make_move` |
| `Legal` | legal.dfy | `generate_legal_moves`, `has_any_legal_moves`, `material_balance` |
| `Session` | game.dfy | the `Game` class |
| `Evaluation` | evaluation.dfy | `evaluate_board`, `evaluate_terminal` |
| `Ordering` | ordering.dfy | `order_moves` and the stable descending sort it uses |
| `Search` | search.dfy | `minimax` and the root loop of `choose_ai_move`, over an abstract game |
| `Opponent` | opponent.dfy | `choose_ai_move` on chess, `AI_SETTINGS` |
| `Learning` | learning.dfy | `chess_game/learning.py`: the learning store, kept in memory |

The search is written once, over a record of the operations it uses: legal
moves, playing a move, terminal and static scores, and ordering. Its results
are proved against a reference minimax that neither prunes nor orders moves.
`Opponent` plugs in the chess operations and proves they meet the search's
assumptions.

The game session takes the repetition key as a parameter. `WithClocks` is
the program's board key, which includes both clocks. `PositionOnly` is the
key without them, as a threefold-repetition rule needs. Both are proved
about (see Findings).

## Model

| member | source | states |
|---|---|---|
| Notation.Opposite | chess_game/utils.py:10-14 | the opposite colour is never the colour itself |
| Notation.OppositeInvolution | chess_game/utils.py:10-14 | taking the opposite twice gives back the colour |
| Notation.KindLetterInjective | chess_game/utils.py:17-23 | two piece kinds share a letter exactly when they are the same kind |
| Notation.SquareToIndices | chess_game/utils.py:40-54 | a name is accepted when it is two characters, a file letter a–h in either case and an ASCII rank digit 1–8, and rejected otherwise; accepted names give a row and column on the board |
| Notation.IndicesToSquare | chess_game/utils.py:57-60 | the name of a square starts with its file letter |
| Notation.SquareRoundTrip | chess_game/utils.py:40-60 | reading back the name of any square gives that square |
| Notation.TextRoundTrip | chess_game/utils.py:40-60 | naming the square read from an accepted text gives the text in lower case |
| Notation.SplitLoneToken | chess_game/utils.py:70-71 | a lone four-character token is cut into two halves that join back to it; any other token list is left alone |
| Notation.CheckParts | chess_game/utils.py:72-84 | two or three parts are accepted exactly when both squares parse and the promotion, if present, is one of q, r, b, n; the result holds the parts themselves |
| Notation.ParseMoveInput | chess_game/utils.py:63-84 | blank text is rejected; an accepted text gives two valid squares and an allowed promotion, taken from the words of the cleaned text in one of the three accepted shapes; conversely two or three words with valid squares and an allowed promotion, or one four-character word whose halves are valid squares, are accepted as those parts |
| Notation.FormatMoveSanLike | chess_game/utils.py:87-97 | the text is the origin, the destination, the lower-case promotion letter if any, then the suffix, each in its place |
| Notation.FormatThenParse | chess_game/utils.py:63-97 | a move formatted without promotion or suffix parses back to the same two squares |
| Notation.FormattedPromotionIsRejected | chess_game/utils.py:63-97 | a formatted promotion such as "e7e8q" is five characters without separator, so the parser rejects it |
| Pieces.NewPiece | chess_game/pieces.py:34-38 | a new piece has the given colour and kind and has not moved |
| Pieces.PieceValue | chess_game/pieces.py:24-31 | every piece is worth between 100 and 20000 |
| Pieces.ValuesIncrease | chess_game/pieces.py:24-31 | pawn < knight < bishop < rook < queen < king |
| Pieces.Letter | chess_game/pieces.py:45-49 | White pieces use the upper-case kind letter and Black pieces its lower-case form |
| Pieces.LetterInjective | chess_game/pieces.py:45-49 | two pieces share a letter exactly when they have the same colour and kind |
| Chessboard.Set | chess_game/board.py:55-56 | the square written holds the new content, every other square and every other field is unchanged |
| Chessboard.EmptyBoard | chess_game/board.py:8-19 | a new board is empty, White to move, all four castling rights held, no en-passant target, clocks 0 and 1 |
| Chessboard.SetupInitial | chess_game/board.py:34-50 | pawns fill rows 1 and 6, the back ranks hold R N B Q K B N R, the middle rows and all other fields are untouched |
| Chessboard.InitialOccupancy | chess_game/board.py:34-50 | the initial position has 32 pieces, on exactly rows 0, 1, 6 and 7 |
| Chessboard.InitialKings | chess_game/board.py:34-50 | in the initial position the only White king is on (7, 4), the only Black king on (0, 4), and White moves with all rights |
| Chessboard.RankFenRoundTrip | chess_game/board.py:63-83 | expanding a rank field gives back the rank square by square; its digits are 1–8 and never adjacent, and it contains no '/' or space |
| Chessboard.PlacementRoundTrip | chess_game/board.py:63-85 | the placement field splits at '/' into eight well-formed rank fields, each expanding to its row |
| Chessboard.CastlingFieldFaithful | chess_game/board.py:89-94 | the castling field is "-" exactly when no right is held, and each of K, Q, k, q appears exactly when its right is held |
| Chessboard.CastlingFieldInjective | chess_game/board.py:89-94 | two sets of rights give the same field exactly when they are equal |
| Chessboard.EnPassantFieldFaithful | chess_game/board.py:96-101 | the en-passant field is "-" exactly when there is no target, and otherwise reads back as the target square |
| Chessboard.BoardKeyDetermines | chess_game/board.py:105-133 | boards with the same key agree on side to move, rights, en-passant target, both clocks and the letter on every square |
| Chessboard.ToFen | chess_game/board.py:63-103 | the FEN text splits at spaces into exactly six fields: the placement, the side letter, the castling field, the en-passant field and the two clocks in decimal |
| Chessboard.BoardKey | chess_game/board.py:105-133 | the key splits at spaces into exactly six fields: the square letters ('.' for empty) rank by rank, the side letter, the castling field, the en-passant field and the two clocks |
| Attacks.Forward | chess_game/game_logic.py:102 | White pawns move towards row 0 and Black pawns towards row 7 |
| Attacks.LocateKing | chess_game/game_logic.py:11-15 | no result exactly when the colour has no king; otherwise the result holds that colour's king and no king of that colour comes earlier in row-major order |
| Attacks.RayHitSteps | chess_game/game_logic.py:45-74 | the first piece met along a ray lies a whole number of steps from its start |
| Attacks.IsSquareAttacked | chess_game/game_logic.py:18-86 | with the pawn test corrected, an attack always has a piece of the attacking side on the board |
| Attacks.IsSquareAttackedAsWritten | chess_game/game_logic.py:18-86 | the program's test also needs an attacker on the board; it misses only attacks of a pawn diagonally behind the square and adds only a pawn diagonally in front of it |
| Attacks.IsInCheck | chess_game/game_logic.py:89-94 | a colour in check has a king and the other side has a piece on the board |
| Attacks.IsInCheckAsWritten | chess_game/game_logic.py:89-94 | the program's check test misses a check only when a pawn attacks the king from diagonally in front of it |
| AttackMap.CheckReading | chess_game/game_logic.py:89-94 | check holds exactly when the colour has a king and some pseudo-legal move of the other side lands on it |
| AttackMap.AttackedIffCapturable | chess_game/game_logic.py:18-86 | a square held by the other side is attacked exactly when some pseudo-legal move of the attacker lands on it |
| AttackMap.CheckIffKingCapturable | chess_game/game_logic.py:89-94 | a colour with a king is in check exactly when some pseudo-legal move of the other side lands on its first king |
| AttackMap.PawnsOnly | chess_game/game_logic.py:27-86 | when the attacker has only pawns, no knight, slider or king test finds an attack |
| AttackMap.PawnAttackAsWrittenMisses | chess_game/game_logic.py:18-26 | a White pawn on (6, 4) can take a knight on (5, 3), and the corrected test sees it, but the pawn test as written does not |
| AttackMap.CheckAsWrittenMissesPawn | chess_game/game_logic.py:89-94 | with the White king on (7, 4) and a Black pawn on (6, 3), the king is in check, but the program's test reports none |
| MoveGen.Promotions | chess_game/game_logic.py:106-108 | a pawn reaching the last row gives four moves, promoting to queen, rook, bishop and knight in that order |
| MoveGen.PawnPushes | chess_game/game_logic.py:104-113 | pushes stay in the pawn's column and land on an empty square, none exist when the square ahead is occupied, the single step (or its four promotions) is generated whenever the square ahead is empty, and the double step whenever the pawn is on its start row with both squares empty |
| MoveGen.PawnCapture | chess_game/game_logic.py:114-125 | a diagonal capture exists exactly when the square diagonally ahead holds a piece of the other side |
| MoveGen.PawnEnPassant | chess_game/game_logic.py:126-131 | there is one en-passant move exactly when the target lies one row ahead and one column aside, and none otherwise; it goes to the target, flagged as en passant and never promoting |
| MoveGen.PawnMoves | chess_game/game_logic.py:97-131 | an empty square has no pawn moves; every pawn move is a push onto an empty square of its column (two rows only from the start row over an empty square), a diagonal step onto a piece of the other side, or en passant onto the target |
| MoveGen.PawnCapturesComplete | chess_game/game_logic.py:114-125 | every opposing piece diagonally in front of a pawn can be captured by it |
| MoveGen.PawnPushComplete | chess_game/game_logic.py:104-110 | with the square ahead empty, the single step (or each of its four promotions) is among the pawn's moves |
| MoveGen.PawnDoubleStepComplete | chess_game/game_logic.py:111-113 | a pawn on its start row with both squares ahead empty has the double step among its moves |
| MoveGen.PawnEnPassantComplete | chess_game/game_logic.py:126-131 | when the en-passant target is one row ahead and one column aside, the en-passant capture onto it is among the pawn's moves |
| MoveGen.OffsetMoves | chess_game/game_logic.py:134-156 | a move is generated exactly when it goes by one of the offsets to an on-board square that is empty or held by the other side |
| MoveGen.CastlingMoves | chess_game/game_logic.py:201-223 | at most two castling moves; castling is offered only to a king on its home square (column 4) that is not in check; king side requires the right, empty (row, 5) and (row, 6) and neither attacked; queen side requires the right, empty columns 1–3 and neither (row, 3) nor (row, 2) attacked; and when all of a side's conditions hold, that castling move is offered |
| MoveGen.KingMoves | chess_game/game_logic.py:185-223 | every king move starts on the king and is not an en-passant move |
| MoveGen.RayMovesSteps | chess_game/game_logic.py:159-182 | every move along a ray lies a whole number of steps from the slider |
| MoveGen.SlidingMembers | chess_game/game_logic.py:159-182 | a sliding move is generated exactly when it lies on one of the piece's rays: an empty square before the first piece, or that piece's square when it belongs to the other side |
| MoveGen.PieceMoves | chess_game/game_logic.py:228-260 | every move generated for a piece starts on that piece |
| MoveGen.GatheredIsGenerated | chess_game/game_logic.py:226-261 | every move gathered from the board is generated by a piece of the colour and starts on that piece |
| MoveGen.GeneratedIsGathered | chess_game/game_logic.py:226-261 | every move some piece of the colour generates is gathered from the board |
| MoveGen.PseudoLegalMoves | chess_game/game_logic.py:226-261 | the list holds exactly the moves some piece of the colour generates, each starting on a piece of that colour |
| Apply.RevokeBoth | chess_game/game_logic.py:298-301 | a king move withdraws both of its colour's rights and leaves the other colour's alone |
| Apply.RevokeCorner | chess_game/game_logic.py:302-319 | leaving or losing a corner withdraws exactly that corner's right |
| Apply.Arriving | chess_game/game_logic.py:292-297 | the arriving piece keeps its colour, is marked as moved, and changes kind only when a pawn promotes |
| Apply.MakeMove | chess_game/game_logic.py:264-331 | the side to move passes, the full-move number rises after Black's move, the half-move clock resets on a pawn move or capture, the captured piece is the one on the destination (for en passant the one beside the mover), the arriving piece stands on the destination and the origin is emptied |
| Apply.MakeMoveAsWritten | chess_game/game_logic.py:270-275 | apart from en passant the program's move is the corrected move |
| Apply.MakeMoveFrame | chess_game/game_logic.py:264-331 | a square the move does not touch keeps its contents |
| Apply.RightsOnlyWithdrawn | chess_game/game_logic.py:298-319 | a move never grants a castling right |
| Apply.RightsWithdrawnBy | chess_game/game_logic.py:298-319 | each of the four rights survives exactly when it was held, the move is not by its colour's king, no rook leaves its corner and no rook is taken there |
| Apply.EnPassantAfter | chess_game/game_logic.py:320-323 | an en-passant target is left exactly after a pawn's double step, on the square it passed over |
| Apply.CastlingMovesRook | chess_game/game_logic.py:278-290 | castling empties the corner and the king's square, puts the rook (marked moved) on the square the king crossed and the king on its destination |
| Apply.EnPassantTakesDoubleStepper | chess_game/game_logic.py:264-331 | after a pawn's double step, an en-passant capture generated for the other side takes that very pawn and leaves its square empty |
| Apply.CaptureIsOpponent | chess_game/game_logic.py:226-331 | a generated move other than en passant never captures a piece of its own side |
| Apply.EnPassantAsWrittenMissesVictim | chess_game/game_logic.py:270-275 | in a position where White may take en passant, the program's move captures nothing and leaves the Black pawn standing; the corrected move removes it |
| Legal.KeepSafe | chess_game/game_logic.py:334-344 | the kept moves are exactly the given moves that do not leave the mover in check, in their original order |
| Legal.LegalMoves | chess_game/game_logic.py:334-344 | legal moves are exactly the pseudo-legal moves that do not leave the mover's king attacked, in generation order |
| Legal.CurrentLegalMoves | chess_game/game_logic.py:334-344 | without a colour, the side to move's legal moves |
| Legal.HasAnyLegalMoves | chess_game/game_logic.py:347-349 | true exactly when some pseudo-legal move is safe, that is, when the legal-move list is non-empty |
| Legal.Safe | chess_game/game_logic.py:339-343 | a move is kept exactly when, after it, the mover has no king or no pseudo-legal move of the other side lands on the mover's king |
| Legal.MaterialBalance | chess_game/game_logic.py:352-362 | the balance is the total value of the colour's pieces less the total value of the other colour's |
| Legal.MaterialAntisymmetric | chess_game/game_logic.py:352-362 | White's material balance is the negation of Black's |
| Legal.MaterialAfterMove | chess_game/game_logic.py:264-362 | a plain move changes the mover's balance by the value captured plus what a promotion adds |
| Evaluation.EvaluateNearMaterial | chess_game/ai_opponent.py:20-33 | the evaluation differs from the material balance by at most 15 for each of the four centre squares |
| Evaluation.EvaluateBoard | chess_game/ai_opponent.py:20-33 | the evaluation is the material balance plus 15 for each centre square held by the colour, less 15 for each held by the other |
| Evaluation.EvaluateAntisymmetric | chess_game/ai_opponent.py:20-33 | the evaluation for one colour is the negation of the evaluation for the other |
| Evaluation.EvaluateBounded | chess_game/ai_opponent.py:20-33 | every evaluation lies within 64 × 20015 in size |
| Evaluation.EvaluateTerminal | chess_game/ai_opponent.py:36-44 | no terminal score while the side to move has a legal move; otherwise −100000 if the root side is mated, 100000 if the other side is, 0 for stalemate |
| Evaluation.TerminalScores | chess_game/ai_opponent.py:36-44 | terminal scores are within the evaluation bound and change sign with the root side |
| Ordering.SortDesc | chess_game/ai_opponent.py:69 | sorting keeps the same scored moves, each as often as before |
| Ordering.SortSorted | chess_game/ai_opponent.py:69 | the sorted list has non-increasing scores |
| Ordering.SortStable | chess_game/ai_opponent.py:69 | moves with equal scores keep their relative order |
| Ordering.SortHead | chess_game/ai_opponent.py:69 | the head of the sorted list is the first entry with the highest score |
| Ordering.MoveScore | chess_game/ai_opponent.py:47-68 | the score is the capture term for the piece the move takes, plus 500 if the move gives check, plus 300 for a castling king |
| Ordering.MoveScoreAsWritten | chess_game/ai_opponent.py:47-68 | apart from en passant the program's score differs from the corrected one only in the check bonus: it adds 500 when the program's check test reports check instead of when the corrected test does |
| Ordering.CapturesFirst | chess_game/ai_opponent.py:47-70 | a capture by any piece but the king is scored above every move that neither captures nor castles |
| Ordering.EnPassantScoredAsQuiet | chess_game/ai_opponent.py:53-56 | in the en-passant position the program looks for the victim on an empty square, so the capture scores as a quiet move: the program's score is 0 and the corrected score, weighing the pawn taken, is 1090 |
| Ordering.CheckScoredAsQuiet | chess_game/ai_opponent.py:61-65 | a White pawn stepping from (6, 3) to (5, 3) gives check to the Black king on (4, 4); the corrected score is 500 and the program's is 0 |
| Ordering.OrderMoves | chess_game/ai_opponent.py:47-70 | the result holds the same moves, each as often as before, with non-increasing scores, and equally scored moves in their original order |
| Search.SearchCorrect | chess_game/ai_opponent.py:73-131 | alpha-beta is fail-soft against plain minimax: a result at or below alpha bounds the true value from above, one at or above beta bounds it from below, and one strictly inside the window is exact |
| Search.SearchFullWindow | chess_game/ai_opponent.py:73-131 | with the full window the search returns exactly the minimax value |
| Search.MinimaxBounded | chess_game/ai_opponent.py:73-131 | minimax values stay within the static-score bound, so the infinite sentinels are never returned |
| Search.BestAttained | chess_game/ai_opponent.py:91-131 | the best child value is the value of some child |
| Search.BestPermutation | chess_game/ai_opponent.py:90 | reordering the moves does not change the best child value |
| Search.RootScoresSound | chess_game/ai_opponent.py:145-162 | every root score bounds its move's true value from above, and is exact when it beats every earlier score |
| Search.TopCount | chess_game/ai_opponent.py:164-166 | the random pick draws from between 1 and all the moves: max(1, ⌊n × randomness⌋), capped at n |
| Search.RootChoice | chess_game/ai_opponent.py:163-168 | the chosen move is one of the moves |
| Search.RootChoiceOptimal | chess_game/ai_opponent.py:145-168 | without randomness, or with one move, the chosen move has the highest true value among all moves |
| Opponent.Ordered | chess_game/ai_opponent.py:90 | the search's ordering keeps the same moves, each as often as before |
| Opponent.ChessSound | chess_game/ai_opponent.py:20-70 | the chess operations meet what the search assumes: ordering only rearranges, and static scores are bounded |
| Opponent.ChooseAiMove | chess_game/ai_opponent.py:134-168 | no move exactly when there is no legal move; otherwise the chosen move is legal |
| Opponent.ChooseAiMoveOptimal | chess_game/ai_opponent.py:134-168 | at depth 1 or more without randomness, the chosen move's minimax value is the highest over all legal moves |
| Opponent.Settings | chess_game/ai_opponent.py:13-17 | every level searches at least two plies with randomness below 1, and only Hard has none |
| Opponent.HardLevelOptimal | chess_game/ai_opponent.py:13-17 | at the Hard level the choice does not depend on the random draw and is a best move |
| Session.PositionKeyFaithful | chess_game/board.py:105-127 | two boards have the same position key exactly when they agree on placement, side to move, rights and en-passant target |
| Session.ClocksSplitPosition | chess_game/board.py:105-133 | two boards in the same position with different clocks get different board keys but the same position key |
| Session.Counted | chess_game/game_logic.py:379-381 | recording a key raises its count by one and leaves every other count alone |
| Session.OccurrencesArePositions | chess_game/game_logic.py:379-381 | counting position keys in a history counts the boards in the same position |
| Session.NewGame | chess_game/game_logic.py:366-377 | a new game starts from the initial position with both capture lists empty and no draw offer; its history is that one board, the log is empty, there is no result and no last move, and the repetition table counts that board once |
| Session.IsCheckmate | chess_game/game_logic.py:391-393 | checkmate holds exactly when the side to move has a king that some pseudo-legal move of the other side lands on, and no legal move |
| Session.IsStalemate | chess_game/game_logic.py:395-397 | stalemate holds exactly when the side to move has no legal move and its king, if any, is not attacked; it never coincides with checkmate |
| Session.FiftyMovesAfterMove | chess_game/game_logic.py:399-400 | after a played move the fifty-move draw can be claimed exactly when the move was neither a pawn move nor a capture and the clock stood at 99 or more |
| Session.CanClaimThreefold | chess_game/game_logic.py:402-404 | when the table counts the history exactly, the claim holds exactly when the current key occurs three or more times in the history; when it counts at least the history, three occurrences suffice |
| Session.ResultAfterMove | chess_game/game_logic.py:431-445 | checkmate names the side that just moved as the winner; failing that, no legal move means stalemate; then the fifty-move claim, then the threefold claim, else the result is kept |
| Session.MoveTextReadable | chess_game/game_logic.py:411-424 | the log entry is "W: " or "B: ", the origin, '-', the destination, and "=" with the promotion letter; both squares read back |
| Session.MoveTextInjective | chess_game/game_logic.py:411-424 | two log entries are equal exactly when the colours, squares and promotions are |
| Session.MoveTextOneSpace | chess_game/game_logic.py:420-424 | every log entry holds exactly one space, the one after the colour's letter and colon |
| Session.ApplyMoveLogged | chess_game/game_logic.py:406-429 | a played move keeps every log entry a move text |
| Session.OpeningBookSilent | chess_game/learning.py:64-182 | a store whose lines all hold an odd number of spaces keeps that after a game is recorded from a move log, and never suggests a continuation of a logged history |
| Session.EmptyStoreBook | chess_game/learning.py:11-22 | the empty store's opening table has odd lines only and no line with a loss |
| Session.ApplyMove | chess_game/game_logic.py:406-429 | an illegal move is refused and changes nothing; a legal one plays the move, appends the board and the log entry, records the move, clears the draw offer, raises the new position's repetition count by one and brings the result up to date as `Session.ResultAfterMove` decides it for the new game |
| Session.CapturesFiled | chess_game/game_logic.py:413-419 | a captured piece is appended to the list of its colour and the other list is unchanged |
| Session.UndoLastMove | chess_game/game_logic.py:447-456 | refused with one board left; otherwise the last board is dropped, the board becomes the previous one, the last log entry is dropped, result and last move are cleared, and the repetition table, captured lists and draw offer are left as they were |
| Session.NewGameInvariants | chess_game/game_logic.py:366-377 | a new game is consistent and its repetition table counts its history exactly |
| Session.ApplyMoveConsistent | chess_game/game_logic.py:406-429 | applying a move keeps the board as the last history entry |
| Session.ApplyMoveTracks | chess_game/game_logic.py:406-429 | applying a move keeps the repetition table equal to the history's counts |
| Session.ApplyMoveCovers | chess_game/game_logic.py:406-429 | applying a move keeps every count at least the history's |
| Session.UndoInvariants | chess_game/game_logic.py:447-456 | undoing keeps the game consistent and the table at least the history's counts |
| Session.UndoAfterApply | chess_game/game_logic.py:406-456 | undoing a move just applied restores the board, the history and the log |
| Session.LegalMoveAdvances | chess_game/game_logic.py:324-330 | every legal move raises the ply number, two per full move plus one for Black, by exactly one |
| Session.ApplyMoveClimbs | chess_game/game_logic.py:406-429 | without undo, the ply numbers along the history strictly increase |
| Session.ClimbingKeysDistinct | chess_game/board.py:105-133 | in such a history every board key occurs at most once |
| Session.ThreefoldNeverClaimedAsWritten | chess_game/game_logic.py:402-404 | with the program's key and a game without undo, no key is ever counted twice, so threefold repetition can never be claimed |
| Session.NoRepetitionDrawAsWritten | chess_game/game_logic.py:431-445 | with the program's key and no undo, a move never produces "Draw by threefold repetition" |
| Session.ThreefoldMeansRepetition | chess_game/game_logic.py:402-404 | with the position key, threefold can be claimed exactly when the current position occurs at least three times in the history |
| Session.CheckmateRead | chess_game/learning.py:48-57 | the learning store reads a checkmate result as no draw, and as a computer win exactly when the computer is the winner |
| Session.DrawRead | chess_game/learning.py:48-57 | every "Draw by …" result reads as a draw and never as a win |
| Learning.IntToStringInjective | chess_game/learning.py:202-203 | two integers print alike exactly when they are equal |
| Learning.MoveToStrInjective | chess_game/learning.py:202-203 | two moves give the same string exactly when their squares and promotions agree |
| Learning.Bump | chess_game/learning.py:124-145 | one counter rises by one, created at zero if absent, and every other counter is unchanged |
| Learning.RecordBlunder | chess_game/learning.py:124-132 | the counter for this position and move rises by one and nothing else in the store changes |
| Learning.RecordTactic | chess_game/learning.py:134-145 | the tactic counter for this position and move rises by one and nothing else in the store changes |
| Learning.BlunderPenalty | chess_game/learning.py:184-191 | the penalty is 100 for each recorded blunder of this move in this position |
| Learning.TacticalBonus | chess_game/learning.py:193-200 | the bonus is 50 for each recorded tactic of this move in this position |
| Learning.PenaltyAfterBlunder | chess_game/learning.py:124-191 | recording a blunder raises its penalty by 100 and no other move's; the empty store penalises nothing |
| Learning.BonusAfterTactic | chess_game/learning.py:134-200 | recording a tactic raises its bonus by 50 and no other move's; the empty store rewards nothing |
| Learning.CreditLine | chess_game/learning.py:81-89 | the line gets the credited statistics, created at zero if absent; no other line changes; the set of lines grows by that one; lines stay distinct |
| Learning.LookupLines | chess_game/learning.py:81-84 | a line has statistics exactly when it is one of the stored lines |
| Learning.AdmittedInIntegers | chess_game/learning.py:170-174 | a success score above 0.4 means 10 × wins + 5 × draws > 4 × games |
| Learning.BestFrom | chess_game/learning.py:164-182 | for the program's child test and the corrected one alike: no result exactly when no line is admitted; otherwise the result is admitted, no admitted line outranks it on (score, games), and it strictly outranks every admitted line stored before it |
| Learning.GetOpeningMove | chess_game/learning.py:147-182 | no suggestion exactly when no stored line extends the history by one move with score above 0.4; otherwise the suggestion is one space-free move, the first best-ranked such continuation |
| Learning.JoinedSpaces | chess_game/learning.py:76-79 | joining entries of one space each with spaces gives a line with two spaces per entry, less one |
| Learning.LinePrefixEven | chess_game/learning.py:150-162 | the prefix built from a history of such entries holds an even number of spaces |
| Learning.NoSuggestionFromOddKeys | chess_game/learning.py:147-182 | when every stored line has an odd number of spaces and every history entry one, no continuation is ever suggested |
| Learning.GetOpeningMoveByEntry | chess_game/learning.py:147-182 | with the child test counting one log entry: no suggestion exactly when no stored line extends the history by one entry with score above 0.4; otherwise the suggestion is one entry and best-ranked |
| Learning.EntrySuggested | chess_game/learning.py:147-182 | with that test, a stored line that extends the history by one entry with score above 0.4 gives a suggestion |
| Learning.PrefixKeysGrow | chess_game/learning.py:76-79 | later opening prefixes are strictly longer, so the 20 prefixes of a game are distinct lines |
| Learning.CreditLinesEffect | chess_game/learning.py:75-89 | each prefix of the opening is credited once, every other line is unchanged, and lines stay distinct |
| Learning.ExamineCounts | chess_game/learning.py:104-120 | one computer move files a blunder exactly when the material after the reply fell by 200 or more, and a tactic when it rose by 200 or more |
| Learning.DetectCounts | chess_game/learning.py:94-120 | each counter ends as its old value plus the number of positions where that event was filed under its key |
| Learning.BlunderWitness | chess_game/learning.py:94-113 | a positive blunder count for a key comes from a position where a blunder was filed under it |
| Learning.BlunderCounted | chess_game/learning.py:94-113 | a blunder filed under a key is counted |
| Learning.TacticWitness | chess_game/learning.py:94-120 | a positive tactic count for a key comes from a position where a tactic was filed under it |
| Learning.TacticCounted | chess_game/learning.py:94-120 | a tactic filed under a key is counted |
| Learning.RecordGame | chess_game/learning.py:44-122 | the game count rises by one; openings change only for a won or drawn game with a history; without a history the counters are unchanged; lines stay distinct |
| Learning.RecordGameCounts | chess_game/learning.py:44-122 | after a game every blunder and tactic counter rises by the findings filed under it |
| Learning.RecordGameLines | chess_game/learning.py:44-89 | after a game every opening prefix of a won or drawn game is credited with its result, and every other line is unchanged |
| Learning.CreditIsWinOrDraw | chess_game/learning.py:48-57 | a credited line never gains a loss: it gains a win when the computer won and a draw for a draw |
| Learning.RecordGameKeepsOddKeys | chess_game/learning.py:64-89 | recording a game whose log entries hold one space each keeps every stored line odd in spaces |
| Learning.RecordGameKeepsNoLosses | chess_game/learning.py:64-89 | recording a game never puts a loss on a stored line |
| Learning.RecordedLineSuggested | chess_game/learning.py:64-182 | with the corrected child test, after a won or drawn game each of its first twenty plies is suggested a continuation |

## Left out

- File input and output: `load`, `save`, `LEARNING_FILE` and the JSON format. The store starts empty in memory and `save` is not modelled.
- `player_stats` other than `games_played`: the program never updates the win rate or the style.
- `random.choice`: a `pick: nat` parameter stands for the draw. The chosen entry is `pick` modulo the number of candidates.
- Floating point:
  - `randomness` and the opening score are exact `real`s; rounding is not modelled.
  - `math.inf` is the integer `Search.Infinity` (10^9), which no score reaches.
  - `int(value)` in `minimax` is therefore the identity.
- `Board.copy`, `get_piece`, `iter_squares`, `in_bounds`: boards are values, so copying is the identity. The rest are plain accessors or row-major loops inside other functions.
- `Game.get_legal_moves` and `Game.is_in_check`: one-line wrappers around `generate_legal_moves` and `is_in_check`, used through those.
- `Board.to_ascii`, the Unicode symbols, `self_test`, the GUI, the Lc0 engine and the test scripts: display, I/O or out of the core.
- `GameSnapshot`: the learning store imports it, but the game module does not define it. It is modelled as `Learning.Snapshot` (board, last move, move log), which is what `record_game` reads.
- Opponent.ChooseAiMove: with randomness and more than one move, the contract says only that the pick is legal. It does not say the pick is among the top-scored moves.
- Search.RootChoice: the same weaker statement with randomness.
- Ordering.MoveScore: requires that a move from an empty square lands on an empty square. The program would fail on such a move when it reads the moving piece's value, and legal moves always start on a piece.
- Notation.SquareToIndices: accepts only the ASCII digits 1–8 as a rank and lowers only ASCII letters. Python's `isdigit` and `int` also take other Unicode decimal digits (so "e٤" reads as (4, 4)), and `int` raises on a digit such as "²" that `isdigit` lets through. Both are rejected here, because the model's strings carry no Unicode character classes.
- The rules below are the corrected rules of the two findings on the pawn test and on en passant. Each member checks for check with the corrected pawn test (`Attacks.IsInCheck`) and plays moves with the corrected en-passant removal (`Apply.MakeMove`). The program calls its own `is_in_check` and `make_move` in those places (chess_game/game_logic.py:18-26 and 270-275), so with the White king on (7, 4) and a Black pawn on (6, 3) it reports no check where these members see one (`AttackMap.CheckAsWrittenMissesPawn`). The model does not state what the program's versions of these members compute:
- Legal.Safe: a move is safe by the corrected check test, after the corrected move.
- Legal.KeepSafe: keeps the moves that are safe in the corrected sense.
- Legal.LegalMoves: differs from the program's list wherever the two pawn tests disagree, among others: it drops king moves onto a square a pawn attacks from diagonally in front, which the program keeps; it drops moves other than the king's that leave an existing pawn check unanswered, which the program keeps; and it keeps moves that the program drops because its pawn test reports an attack from a pawn that cannot capture there.
- Legal.CurrentLegalMoves: the same corrected legal moves, for the side to move.
- Legal.HasAnyLegalMoves: reads the corrected legal moves.
- MoveGen.CastlingMoves: the "not in check" and "square not attacked" conditions use the corrected test.
- MoveGen.KingMoves: includes castling under the corrected test.
- Evaluation.EvaluateTerminal: mate and stalemate are read through the corrected check test and legal moves.
- Ordering.MoveScore: adds the check bonus when the corrected test finds check after the corrected move. `Ordering.MoveScoreAsWritten` states where the program's bonus differs.
- Session.IsCheckmate: reads the corrected check test and legal moves.
- Session.IsStalemate: reads the corrected check test and legal moves.
- Session.ResultAfterMove: checkmate and stalemate are those of the corrected rules.
- Session.ApplyMove: refuses exactly the moves outside the corrected legal moves and plays the corrected move.
- Opponent.ChooseAiMove: chooses among the corrected legal moves and searches with the corrected rules.
- Opponent.ChooseAiMoveOptimal: optimal over the corrected legal moves and evaluation.
- Opponent.HardLevelOptimal: the same, at the Hard level.

## Findings

| source | as written | input that shows it | evidently intended | confidence | as-written member | corrected member |
|---|---|---|---|---|---|---|
| chess_game/game_logic.py:19-26 | the pawn test looks for an attacking pawn one row ahead of the square, in the attacker's own direction of travel | a White pawn on (6, 4) and a Black knight on (5, 3): the pawn can capture the knight, but the test looks at (4, 2) and (4, 4) and reports (5, 3) as safe | look one row behind the square, against the attacker's direction, where a pawn that attacks it stands | high, not executed | AttackMap.PawnAttackAsWrittenMisses | AttackMap.AttackedIffCapturable |
| chess_game/game_logic.py:270-275 | en passant removes the piece one row beyond the destination, in the mover's direction | White pawn (3, 4), Black pawn (3, 3), target (2, 3): the program clears (1, 3), captures nothing and leaves the Black pawn | remove the pawn beside the mover, on its origin row in the destination column | high, not executed | Apply.EnPassantAsWrittenMissesVictim | Apply.MakeMove |
| chess_game/ai_opponent.py:53-56 | move ordering looks for the en-passant victim at the same wrong square | the same position: the en-passant capture is scored as a quiet move | weigh the pawn the move takes (score 1090) | high, not executed | Ordering.EnPassantScoredAsQuiet | Ordering.MoveScore |
| chess_game/board.py:105-133 | the repetition key includes the half-move clock and the full-move number, and every move advances the ply count | Ng1-f3 Ng8-f6 Nf3-g1 Nf6-g8 played twice: the start position recurs three times, but each time under a new full-move number, so no key is counted twice | key on placement, side to move, rights and en-passant target only, as a threefold-repetition rule counts positions | high, not executed | Session.ThreefoldNeverClaimedAsWritten | Session.ThreefoldMeansRepetition |
| chess_game/game_logic.py:89-94 | `is_in_check` uses the same pawn test, so it misses a check given by a pawn | White king on (7, 4), Black pawn on (6, 3): the pawn attacks the king, but the test looks at (8, 3) and (8, 5) and reports no check | report check whenever a pawn diagonally in front of the king can take it | high, not executed | AttackMap.CheckAsWrittenMissesPawn | AttackMap.CheckReading |
| chess_game/ai_opponent.py:61-65 | move ordering gives the check bonus through the same `is_in_check` | White pawn from (6, 3) to (5, 3) with the Black king on (4, 4): the move gives check but scores 0 | add 500 whenever the move gives check | high, not executed | Ordering.CheckScoredAsQuiet | Ordering.MoveScore |
| chess_game/learning.py:164-168 | a stored line counts as the next move only when the rest of it holds no space, but every log entry ("W: e2-e4", chess_game/game_logic.py:424) holds one | after a won game the store holds the line "W: e2-e4"; with an empty history the remainder is "W: e2-e4", which holds a space, so nothing is suggested, and the same holds for every logged history | admit a line that extends the history by exactly one log entry | high, not executed | Session.OpeningBookSilent | Learning.GetOpeningMoveByEntry |
