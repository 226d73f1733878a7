/** The experience store of the computer opponent (chess_game/learning.py):
    win and draw counts per opening line, counts of remembered blunders and
    tactics per position and move, the penalty and bonus they yield, and the
    suggestion of an opening continuation. The store starts empty and lives
    in memory. */
module Learning {
  import opened Common
  import opened Notation
  import opened Chessboard
  import opened Legal

  // ---------------------------------------------------------------------------
  // Move strings

  /** How an f-string prints an optional `PieceType`: `None`, or the enum
      member's class-qualified name. */
  function PromotionText(p: Option<PieceKind>): string {
    match p
    case None => "None"
    case Some(King) => "PieceType.KING"
    case Some(Queen) => "PieceType.QUEEN"
    case Some(Rook) => "PieceType.ROOK"
    case Some(Bishop) => "PieceType.BISHOP"
    case Some(Knight) => "PieceType.KNIGHT"
    case Some(Pawn) => "PieceType.PAWN"
  }

  /** The five fields `_move_to_str` prints, in order. */
  function MoveFields(m: Move): seq<string> {
    [IntToString(m.fromRow), IntToString(m.fromCol), IntToString(m.toRow), IntToString(m.toCol),
     PromotionText(m.promotion)]
  }

  /** `_move_to_str`: the coordinates and the promotion, comma-separated. */
  function MoveToStr(m: Move): string {
    Join(",", MoveFields(m))
  }

  lemma IntToStringInjective(i: int, j: int)
    ensures IntToString(i) == IntToString(j) <==> i == j
  {
    if IntToString(i) == IntToString(j) {
      var s := IntToString(i);
      if i < 0 {
        assert s[0] == '-' && !IsDigit('-');
        assert NatToString(-i) == s[1..] == NatToString(-j);
        NatToStringInjective(-i, -j);
      } else {
        assert IsDigit(NatToString(i)[0]);
        NatToStringInjective(i, j);
      }
    }
  }

  lemma NoCommaInNumber(i: int)
    ensures ',' !in IntToString(i)
  {
    if i < 0 {
      assert IntToString(i) == "-" + NatToString(-i);
      assert AllDigits(NatToString(-i));
    } else {
      assert AllDigits(NatToString(i));
    }
  }

  lemma NoCommaInFields(m: Move)
    ensures forall k :: 0 <= k < |MoveFields(m)| ==> ',' !in MoveFields(m)[k]
  {
    NoCommaInNumber(m.fromRow);
    NoCommaInNumber(m.fromCol);
    NoCommaInNumber(m.toRow);
    NoCommaInNumber(m.toCol);
  }

  /** Two moves print alike exactly when they agree on the coordinates and
      the promotion; the castling and en-passant flags are not printed. */
  lemma MoveToStrInjective(a: Move, b: Move)
    ensures MoveToStr(a) == MoveToStr(b) <==>
      (a.fromRow, a.fromCol, a.toRow, a.toCol, a.promotion) == (b.fromRow, b.fromCol, b.toRow, b.toCol, b.promotion)
  {
    if MoveToStr(a) == MoveToStr(b) {
      NoCommaInFields(a);
      NoCommaInFields(b);
      SplitJoin(MoveFields(a), ',');
      SplitJoin(MoveFields(b), ',');
      assert MoveFields(a) == MoveFields(b);
      IntToStringInjective(a.fromRow, b.fromRow);
      IntToStringInjective(a.fromCol, b.fromCol);
      IntToStringInjective(a.toRow, b.toRow);
      IntToStringInjective(a.toCol, b.toCol);
    }
  }

  // ---------------------------------------------------------------------------
  // Blunder and tactic counters

  /** A counter table keyed by (board key, move string); an absent key counts 0. */
  type Counts = map<(string, string), nat>

  function Count(c: Counts, key: (string, string)): nat {
    if key in c then c[key] else 0
  }

  /** Raises one counter by one, creating it at 0 first when absent. */
  function Bump(c: Counts, key: (string, string)): (r: Counts)
    ensures r.Keys == c.Keys + {key}
    ensures Count(r, key) == Count(c, key) + 1
    ensures forall k :: k != key ==> Count(r, k) == Count(c, k)
  {
    c[key := Count(c, key) + 1]
  }

  datatype Stats = Stats(w: nat, d: nat, l: nat)

  /** The in-memory store: the opening lines in insertion order (the order
      the program's dictionary iterates in), and the two counter tables. */
  datatype Store = Store(openings: seq<(string, Stats)>, blunders: Counts, tactics: Counts, gamesPlayed: nat)

  function EmptyStore(): Store {
    Store([], map[], map[], 0)
  }

  /** `_record_blunder`. */
  function RecordBlunder(s: Store, boardKey: string, m: Move): (r: Store)
    ensures r.openings == s.openings && r.tactics == s.tactics && r.gamesPlayed == s.gamesPlayed
    ensures Count(r.blunders, (boardKey, MoveToStr(m))) == Count(s.blunders, (boardKey, MoveToStr(m))) + 1
    ensures forall k :: k != (boardKey, MoveToStr(m)) ==> Count(r.blunders, k) == Count(s.blunders, k)
  {
    s.(blunders := Bump(s.blunders, (boardKey, MoveToStr(m))))
  }

  /** `_record_tactic`. */
  function RecordTactic(s: Store, boardKey: string, m: Move): (r: Store)
    ensures r.openings == s.openings && r.blunders == s.blunders && r.gamesPlayed == s.gamesPlayed
    ensures Count(r.tactics, (boardKey, MoveToStr(m))) == Count(s.tactics, (boardKey, MoveToStr(m))) + 1
    ensures forall k :: k != (boardKey, MoveToStr(m)) ==> Count(r.tactics, k) == Count(s.tactics, k)
  {
    s.(tactics := Bump(s.tactics, (boardKey, MoveToStr(m))))
  }

  /** `get_blunder_penalty`: 100 per remembered blunder of this move here. */
  function BlunderPenalty(s: Store, boardKey: string, m: Move): (p: nat)
    ensures p == 100 * Count(s.blunders, (boardKey, MoveToStr(m)))
  {
    var count := Count(s.blunders, (boardKey, MoveToStr(m)));
    if count > 0 then count * 100 else 0
  }

  /** `get_tactical_bonus`: 50 per remembered tactic of this move here. */
  function TacticalBonus(s: Store, boardKey: string, m: Move): (p: nat)
    ensures p == 50 * Count(s.tactics, (boardKey, MoveToStr(m)))
  {
    var count := Count(s.tactics, (boardKey, MoveToStr(m)));
    if count > 0 then count * 50 else 0
  }

  /** Recording a blunder raises its penalty by 100 and the penalty of any
      other move only when it prints alike; the empty store penalises
      nothing. */
  lemma PenaltyAfterBlunder(s: Store, boardKey: string, m: Move, key2: string, m2: Move)
    ensures BlunderPenalty(RecordBlunder(s, boardKey, m), boardKey, m) == BlunderPenalty(s, boardKey, m) + 100
    ensures (key2 != boardKey || MoveToStr(m2) != MoveToStr(m)) ==>
      BlunderPenalty(RecordBlunder(s, boardKey, m), key2, m2) == BlunderPenalty(s, key2, m2)
    ensures BlunderPenalty(EmptyStore(), key2, m2) == 0
  {
  }

  /** The same for tactics and their bonus of 50. */
  lemma BonusAfterTactic(s: Store, boardKey: string, m: Move, key2: string, m2: Move)
    ensures TacticalBonus(RecordTactic(s, boardKey, m), boardKey, m) == TacticalBonus(s, boardKey, m) + 50
    ensures (key2 != boardKey || MoveToStr(m2) != MoveToStr(m)) ==>
      TacticalBonus(RecordTactic(s, boardKey, m), key2, m2) == TacticalBonus(s, key2, m2)
    ensures TacticalBonus(EmptyStore(), key2, m2) == 0
  {
  }

  // ---------------------------------------------------------------------------
  // Opening lines

  /** The statistics stored under `key`, if any. */
  function Lookup(o: seq<(string, Stats)>, key: string): Option<Stats> {
    if |o| == 0 then None else if o[0].0 == key then Some(o[0].1) else Lookup(o[1..], key)
  }

  /** The lines the table holds. */
  function Lines(o: seq<(string, Stats)>): set<string> {
    if |o| == 0 then {} else {o[0].0} + Lines(o[1..])
  }

  /** No line is stored twice, as in a dictionary. */
  predicate DistinctLines(o: seq<(string, Stats)>) {
    |o| == 0 || (o[0].0 !in Lines(o[1..]) && DistinctLines(o[1..]))
  }

  /** One more draw, or one more win. */
  function Credit(st: Stats, isDraw: bool): Stats {
    if isDraw then st.(d := st.d + 1) else st.(w := st.w + 1)
  }

  /** Credits the line `key`, creating it with zero counts at the end of the
      table when it is new. */
  function CreditLine(o: seq<(string, Stats)>, key: string, isDraw: bool): (r: seq<(string, Stats)>)
    ensures Lookup(r, key) == Some(Credit(if Lookup(o, key).Some? then Lookup(o, key).value else Stats(0, 0, 0), isDraw))
    ensures forall k :: k != key ==> Lookup(r, k) == Lookup(o, k)
    ensures Lines(r) == Lines(o) + {key}
    ensures DistinctLines(o) ==> DistinctLines(r)
  {
    if |o| == 0 then [(key, Credit(Stats(0, 0, 0), isDraw))]
    else if o[0].0 == key then [(key, Credit(o[0].1, isDraw))] + o[1..]
    else [o[0]] + CreditLine(o[1..], key, isDraw)
  }

  /** A line is stored exactly when it can be looked up. */
  lemma {:induction false} LookupLines(o: seq<(string, Stats)>, key: string)
    ensures Lookup(o, key).Some? <==> key in Lines(o)
  {
    if |o| > 0 && o[0].0 != key {
      LookupLines(o[1..], key);
    }
  }

  // ---------------------------------------------------------------------------
  // get_opening_move

  function Total(st: Stats): nat {
    st.w + st.d + st.l
  }

  function Score(st: Stats): real
    requires Total(st) > 0
  {
    (st.w as real + st.d as real * 0.5) / Total(st) as real
  }

  /** The opening line of `history`: the moves joined by spaces, followed by
      a space unless empty. */
  function LinePrefix(history: seq<string>): string {
    var key := Join(" ", history);
    if key == "" then "" else key + " "
  }

  /** The line `key` extends `prefix` by one space-free move and has been
      seen, with a success score above 0.4. */
  predicate Admitted(prefix: string, key: string, st: Stats) {
    StartsWith(key, prefix) && ' ' !in key[|prefix|..] && Total(st) > 0 && Score(st) > 0.4
  }

  lemma DivAbove(x: real, t: real, c: real)
    requires t > 0.0
    ensures x / t > c <==> x > c * t
  {
    var q := x / t;
    assert q * t == x;
    if q > c {
      assert (q - c) * t > 0.0;
    } else {
      assert (c - q) * t >= 0.0;
    }
  }

  /** The success test in whole numbers: more than 0.4 exactly when ten
      wins and five draws per line outweigh four per game seen. */
  lemma AdmittedInIntegers(st: Stats)
    requires Total(st) > 0
    ensures Score(st) > 0.4 <==> 10 * st.w + 5 * st.d > 4 * Total(st)
  {
    var t := Total(st) as real;
    var x := st.w as real + st.d as real * 0.5;
    DivAbove(x, t, 0.4);
  }

  /** The success score as the sort sees it (0 for a line never seen,
      which is never admitted anyway). */
  function Rate(st: Stats): real {
    if Total(st) > 0 then Score(st) else 0.0
  }

  /** The sort key of `get_opening_move`: success score first, then how
      often the line was seen. */
  predicate Outranks(a: Stats, b: Stats) {
    Rate(a) > Rate(b) || (Rate(a) == Rate(b) && Total(a) > Total(b))
  }

  /** The child test applied to a stored line: the program's (the rest is
      one space-free word) or the one counting a single log entry. */
  datatype ChildTest = OneWord | OneEntry

  predicate Admits(test: ChildTest, prefix: string, key: string, st: Stats) {
    match test
    case OneWord => Admitted(prefix, key, st)
    case OneEntry => AdmittedEntry(prefix, key, st)
  }

  /** The continuation a stable sort by (score, total), highest first, puts
      at the head: the first entry from `i` on that the child test admits
      and that no admitted entry outranks. */
  function BestFrom(o: seq<(string, Stats)>, test: ChildTest, prefix: string, i: nat): (r: Option<nat>)
    requires i <= |o|
    ensures r.None? <==> forall j :: i <= j < |o| ==> !Admits(test, prefix, o[j].0, o[j].1)
    ensures r.Some? ==> i <= r.value < |o| && Admits(test, prefix, o[r.value].0, o[r.value].1)
    ensures r.Some? ==> forall j :: i <= j < |o| && Admits(test, prefix, o[j].0, o[j].1) ==> !Outranks(o[j].1, o[r.value].1)
    ensures r.Some? ==> forall j :: i <= j < r.value && Admits(test, prefix, o[j].0, o[j].1) ==> Outranks(o[r.value].1, o[j].1)
    decreases |o| - i
  {
    if i == |o| then None
    else
      var rest := BestFrom(o, test, prefix, i + 1);
      if !Admits(test, prefix, o[i].0, o[i].1) then rest
      else if rest.Some? && Outranks(o[rest.value].1, o[i].1) then rest
      else Some(i)
  }

  /** `get_opening_move`: the next move of the best-ranked admitted
      continuation of the line played so far, or nothing. */
  function GetOpeningMove(o: seq<(string, Stats)>, history: seq<string>): (r: Option<string>)
    ensures r.None? <==> forall j :: 0 <= j < |o| ==> !Admitted(LinePrefix(history), o[j].0, o[j].1)
    ensures r.Some? ==> ' ' !in r.value
    ensures r.Some? ==> exists k :: (0 <= k < |o| && o[k].0 == LinePrefix(history) + r.value
      && Admitted(LinePrefix(history), o[k].0, o[k].1)
      && (forall j :: 0 <= j < |o| && Admitted(LinePrefix(history), o[j].0, o[j].1) ==> !Outranks(o[j].1, o[k].1))
      && (forall j :: 0 <= j < k && Admitted(LinePrefix(history), o[j].0, o[j].1) ==> Outranks(o[k].1, o[j].1)))
  {
    var prefix := LinePrefix(history);
    match BestFrom(o, OneWord, prefix, 0)
    case None => None
    case Some(k) =>
      assert o[k].0 == prefix + o[k].0[|prefix|..];
      Some(o[k].0[|prefix|..])
  }

  // ---------------------------------------------------------------------------
  // The child test and the move log's entries

  /** Every entry holds exactly one space, as the game's "W: e2-e4" entries do. */
  predicate OneSpaceEach(l: seq<string>) {
    forall e <- l :: SpaceCount(e) == 1
  }

  /** Every stored line holds an odd number of spaces. */
  predicate OddKeys(o: seq<(string, Stats)>) {
    forall k <- Lines(o) :: SpaceCount(k) % 2 == 1
  }

  /** Joining entries of one space each with spaces gives two spaces per
      entry, less one. */
  lemma {:induction false} JoinedSpaces(l: seq<string>)
    requires |l| > 0 && OneSpaceEach(l)
    ensures SpaceCount(Join(" ", l)) == 2 * |l| - 1
  {
    if |l| > 1 {
      assert l[0] in l;
      JoinedSpaces(l[1..]);
      SpaceCountAppend(l[0] + " ", Join(" ", l[1..]));
      SpaceCountAppend(l[0], " ");
    } else {
      assert l[0] in l;
    }
  }

  /** The line prefix of such a history holds an even number of spaces. */
  lemma LinePrefixEven(history: seq<string>)
    requires OneSpaceEach(history)
    ensures SpaceCount(LinePrefix(history)) % 2 == 0
  {
    if |history| > 0 {
      JoinedSpaces(history);
      SpaceCountAppend(Join(" ", history), " ");
    }
  }

  lemma {:induction false} EntryInLines(o: seq<(string, Stats)>, j: nat)
    requires j < |o|
    ensures o[j].0 in Lines(o)
  {
    if j > 0 {
      EntryInLines(o[1..], j - 1);
    }
  }

  /** The program's child test admits only lines with as many spaces as the
      prefix, so a table of odd lines offers nothing after an even prefix. */
  lemma NoSuggestionFromOddKeys(o: seq<(string, Stats)>, history: seq<string>)
    requires OddKeys(o) && OneSpaceEach(history)
    ensures GetOpeningMove(o, history) == None
  {
    var prefix := LinePrefix(history);
    LinePrefixEven(history);
    forall j | 0 <= j < |o|
      ensures !Admitted(prefix, o[j].0, o[j].1)
    {
      if Admitted(prefix, o[j].0, o[j].1) {
        var rest := o[j].0[|prefix|..];
        assert o[j].0 == prefix + rest;
        SpaceCountZero(rest);
        SpaceCountAppend(prefix, rest);
        EntryInLines(o, j);
      }
    }
  }

  /** A line passes the intended child test when it extends `prefix` by
      exactly one log entry (one space), has been seen, and scores above 0.4. */
  predicate AdmittedEntry(prefix: string, key: string, st: Stats) {
    StartsWith(key, prefix) && SpaceCount(key[|prefix|..]) == 1 && Total(st) > 0 && Score(st) > 0.4
  }

  /** `get_opening_move` with the child test counting one log entry rather
      than one space-free word. */
  function GetOpeningMoveByEntry(o: seq<(string, Stats)>, history: seq<string>): (r: Option<string>)
    ensures r.None? <==> forall j :: 0 <= j < |o| ==> !AdmittedEntry(LinePrefix(history), o[j].0, o[j].1)
    ensures r.Some? ==> SpaceCount(r.value) == 1
    ensures r.Some? ==> exists k :: (0 <= k < |o| && o[k].0 == LinePrefix(history) + r.value
      && AdmittedEntry(LinePrefix(history), o[k].0, o[k].1)
      && (forall j :: 0 <= j < |o| && AdmittedEntry(LinePrefix(history), o[j].0, o[j].1) ==> !Outranks(o[j].1, o[k].1)))
  {
    var prefix := LinePrefix(history);
    match BestFrom(o, OneEntry, prefix, 0)
    case None => None
    case Some(k) =>
      assert o[k].0 == prefix + o[k].0[|prefix|..];
      Some(o[k].0[|prefix|..])
  }

  lemma {:induction false} LookupFound(o: seq<(string, Stats)>, key: string) returns (j: nat)
    requires Lookup(o, key).Some?
    ensures j < |o| && o[j] == (key, Lookup(o, key).value)
  {
    if o[0].0 == key {
      j := 0;
    } else {
      var j1 := LookupFound(o[1..], key);
      j := j1 + 1;
    }
  }

  /** With the corrected child test, a stored line that extends the history
      by one entry and scores above 0.4 yields a suggestion. */
  lemma EntrySuggested(o: seq<(string, Stats)>, history: seq<string>, e: string)
    requires OneSpaceEach(history) && SpaceCount(e) == 1
    requires Lookup(o, Join(" ", history + [e])).Some?
    requires var st := Lookup(o, Join(" ", history + [e])).value; Total(st) > 0 && Score(st) > 0.4
    ensures GetOpeningMoveByEntry(o, history).Some?
  {
    var key := Join(" ", history + [e]);
    var prefix := LinePrefix(history);
    if |history| == 0 {
      assert history + [e] == [e];
    } else {
      JoinSnoc(" ", history, e);
      JoinedSpaces(history);
    }
    assert key == prefix + e;
    var j := LookupFound(o, key);
    assert key[|prefix|..] == e;
    assert AdmittedEntry(prefix, o[j].0, o[j].1);
  }

  // ---------------------------------------------------------------------------
  // record_game

  /** What the store reads from each position of a finished game: the board,
      the move that led to it and the move log so far. */
  datatype Snapshot = Snapshot(board: Board, lastMove: Option<Move>, moveLog: seq<string>)

  /** How many plies of the log count as the opening. */
  const OpeningPlies: nat := 20

  /** The material swing, in centipawns, that marks a blunder or a tactic. */
  const Swing: int := 200

  predicate IsDrawResult(result: string) {
    Contains(result, "Draw")
  }

  /** The phrase a result uses to name `c` as the winner. */
  function WinPhrase(c: Color): string {
    if c == White then "White wins" else "Black wins"
  }

  /** The result names the computer's colour as the winner, and is no draw. */
  predicate AiWon(result: string, ai: Color) {
    !IsDrawResult(result) && Contains(result, WinPhrase(ai))
  }

  /** The opening line of the first `j + 1` moves of the log. */
  function PrefixKey(log: seq<string>, j: nat): string
    requires j < |log|
  {
    Join(" ", log[..j + 1])
  }

  lemma {:induction false} JoinSnoc(sep: string, ps: seq<string>, x: string)
    requires |ps| > 0
    ensures Join(sep, ps + [x]) == Join(sep, ps) + sep + x
  {
    if |ps| > 1 {
      JoinSnoc(sep, ps[1..], x);
      assert (ps + [x])[1..] == ps[1..] + [x];
    }
  }

  /** Longer lines have longer keys, so the lines of one log are distinct. */
  lemma {:induction false} PrefixKeysGrow(log: seq<string>, i: nat, j: nat)
    requires i < j < |log|
    ensures |PrefixKey(log, i)| < |PrefixKey(log, j)|
    decreases j
  {
    assert log[..j + 1] == log[..j] + [log[j]];
    JoinSnoc(" ", log[..j], log[j]);
    if i < j - 1 {
      PrefixKeysGrow(log, i, j - 1);
    }
  }

  /** What a line's statistics are before a game credits it. */
  function Before(o: seq<(string, Stats)>, key: string): Stats {
    if Lookup(o, key).Some? then Lookup(o, key).value else Stats(0, 0, 0)
  }

  /** The opening loop of `record_game`: credits the lines of the first
      `i`, …, `n - 1` plies in turn. */
  function CreditLines(o: seq<(string, Stats)>, log: seq<string>, i: nat, n: nat, isDraw: bool): (r: seq<(string, Stats)>)
    requires i <= n <= |log|
    decreases n - i
  {
    if i == n then o else CreditLines(CreditLine(o, PrefixKey(log, i), isDraw), log, i + 1, n, isDraw)
  }

  /** Each line of the first `n` plies is credited exactly once, every other
      line is untouched, and the table keeps its keys distinct. */
  lemma {:induction false} CreditLinesEffect(o: seq<(string, Stats)>, log: seq<string>, i: nat, n: nat, isDraw: bool)
    requires i <= n <= |log|
    ensures forall j :: i <= j < n ==>
      Lookup(CreditLines(o, log, i, n, isDraw), PrefixKey(log, j)) == Some(Credit(Before(o, PrefixKey(log, j)), isDraw))
    ensures forall k :: (forall j :: i <= j < n ==> k != PrefixKey(log, j)) ==>
      Lookup(CreditLines(o, log, i, n, isDraw), k) == Lookup(o, k)
    ensures DistinctLines(o) ==> DistinctLines(CreditLines(o, log, i, n, isDraw))
    decreases n - i
  {
    if i < n {
      var o1 := CreditLine(o, PrefixKey(log, i), isDraw);
      CreditLinesEffect(o1, log, i + 1, n, isDraw);
      forall j | i < j < n
        ensures Before(o1, PrefixKey(log, j)) == Before(o, PrefixKey(log, j))
      {
        PrefixKeysGrow(log, i, j);
      }
    }
  }

  /** A computer move the next ply answered: the computer was to move at
      ply `i` and ply `i + 1` records the move it made. */
  predicate AiMoveAt(h: seq<Snapshot>, ai: Color, i: nat) {
    i + 2 < |h| && h[i].board.current == ai && h[i + 1].lastMove.Some?
  }

  /** The computer's material change from before its move to after the reply. */
  function Diff(h: seq<Snapshot>, ai: Color, i: nat): int
    requires i + 2 < |h|
  {
    MaterialBalance(h[i + 2].board, ai) - MaterialBalance(h[i].board, ai)
  }

  /** The position and move a finding at ply `i` is filed under. */
  function EventKey(h: seq<Snapshot>, i: nat): (string, string)
    requires i + 1 < |h| && h[i + 1].lastMove.Some?
  {
    (BoardKey(h[i].board), MoveToStr(h[i + 1].lastMove.value))
  }

  predicate BlunderAt(h: seq<Snapshot>, ai: Color, i: nat) {
    AiMoveAt(h, ai, i) && Diff(h, ai, i) <= -Swing
  }

  predicate TacticAt(h: seq<Snapshot>, ai: Color, i: nat) {
    AiMoveAt(h, ai, i) && Diff(h, ai, i) >= Swing
  }

  /** How many of the indices `i` .. `n - 1` satisfy `p`. */
  function CountFrom(p: nat -> bool, i: nat, n: nat): nat
    decreases n - i
  {
    if i >= n then 0 else (if p(i) then 1 else 0) + CountFrom(p, i + 1, n)
  }

  /** The plies a finding can be filed at: all but the last two. */
  function Examinable(h: seq<Snapshot>): nat {
    if |h| < 2 then 0 else |h| - 2
  }

  function BlunderTest(h: seq<Snapshot>, ai: Color, key: (string, string)): nat -> bool {
    (j: nat) => BlunderFiled(h, ai, j, key)
  }

  function TacticTest(h: seq<Snapshot>, ai: Color, key: (string, string)): nat -> bool {
    (j: nat) => TacticFiled(h, ai, j, key)
  }

  /** How many blunders from ply `i` on are filed under `key`. */
  function BlundersFrom(h: seq<Snapshot>, ai: Color, i: nat, key: (string, string)): nat {
    CountFrom(BlunderTest(h, ai, key), i, Examinable(h))
  }

  /** How many tactics from ply `i` on are filed under `key`. */
  function TacticsFrom(h: seq<Snapshot>, ai: Color, i: nat, key: (string, string)): nat {
    CountFrom(TacticTest(h, ai, key), i, Examinable(h))
  }

  /** One computer move examined: filed as a blunder, as a tactic, or not at all. */
  function Examine(s: Store, h: seq<Snapshot>, ai: Color, i: nat): (r: Store)
    requires AiMoveAt(h, ai, i)
    ensures r.openings == s.openings && r.gamesPlayed == s.gamesPlayed
  {
    var m := h[i + 1].lastMove.value;
    var key := BoardKey(h[i].board);
    var s1 := if Diff(h, ai, i) <= -Swing then RecordBlunder(s, key, m) else s;
    if Diff(h, ai, i) >= Swing then RecordTactic(s1, key, m) else s1
  }

  /** Examining a move adds one to the counter its finding is filed under
      and leaves every other counter alone. */
  lemma ExamineCounts(s: Store, h: seq<Snapshot>, ai: Color, i: nat, key: (string, string))
    requires AiMoveAt(h, ai, i)
    ensures Count(Examine(s, h, ai, i).blunders, key) ==
      Count(s.blunders, key) + (if BlunderFiled(h, ai, i, key) then 1 else 0)
    ensures Count(Examine(s, h, ai, i).tactics, key) ==
      Count(s.tactics, key) + (if TacticFiled(h, ai, i, key) then 1 else 0)
  {
  }

  /** The detection loop of `record_game`, from ply `i` on. */
  function Detect(s: Store, h: seq<Snapshot>, ai: Color, i: nat): (r: Store)
    ensures r.openings == s.openings && r.gamesPlayed == s.gamesPlayed
    decreases |h| - i
  {
    if i + 2 >= |h| then s
    else if !AiMoveAt(h, ai, i) then Detect(s, h, ai, i + 1)
    else Detect(Examine(s, h, ai, i), h, ai, i + 1)
  }

  /** Every counter grows by the number of findings filed under it. */
  lemma {:induction false} DetectCounts(s: Store, h: seq<Snapshot>, ai: Color, i: nat, key: (string, string))
    ensures Count(Detect(s, h, ai, i).blunders, key) == Count(s.blunders, key) + BlundersFrom(h, ai, i, key)
    ensures Count(Detect(s, h, ai, i).tactics, key) == Count(s.tactics, key) + TacticsFrom(h, ai, i, key)
    decreases |h| - i
  {
    if i + 2 < |h| {
      if !AiMoveAt(h, ai, i) {
        DetectCounts(s, h, ai, i + 1, key);
      } else {
        ExamineCounts(s, h, ai, i, key);
        DetectCounts(Examine(s, h, ai, i), h, ai, i + 1, key);
      }
    }
  }

  /** Ply `j` holds a blunder filed under `key`. */
  predicate BlunderFiled(h: seq<Snapshot>, ai: Color, j: nat, key: (string, string)) {
    BlunderAt(h, ai, j) && EventKey(h, j) == key
  }

  /** Ply `j` holds a tactic filed under `key`. */
  predicate TacticFiled(h: seq<Snapshot>, ai: Color, j: nat, key: (string, string)) {
    TacticAt(h, ai, j) && EventKey(h, j) == key
  }

  /** A positive count comes from some index that satisfies `p`... */
  lemma {:induction false} CountWitness(p: nat -> bool, i: nat, n: nat) returns (j: nat)
    requires CountFrom(p, i, n) > 0
    ensures i <= j < n && p(j)
    decreases n - i
  {
    if p(i) {
      j := i;
    } else {
      j := CountWitness(p, i + 1, n);
    }
  }

  /** ...and every index that satisfies `p` is counted. */
  lemma {:induction false} CountIncludes(p: nat -> bool, i: nat, n: nat, j: nat)
    requires i <= j < n && p(j)
    ensures CountFrom(p, i, n) > 0
    decreases j - i
  {
    if i < j {
      CountIncludes(p, i + 1, n, j);
    }
  }

  /** A counted blunder comes from some ply from `i` on... */
  lemma BlunderWitness(h: seq<Snapshot>, ai: Color, i: nat, key: (string, string)) returns (j: nat)
    requires BlundersFrom(h, ai, i, key) > 0
    ensures i <= j && BlunderFiled(h, ai, j, key)
  {
    j := CountWitness(BlunderTest(h, ai, key), i, Examinable(h));
    assert BlunderTest(h, ai, key)(j);
  }

  /** ...and every blunder from ply `i` on is counted. */
  lemma BlunderCounted(h: seq<Snapshot>, ai: Color, i: nat, j: nat, key: (string, string))
    requires i <= j && BlunderFiled(h, ai, j, key)
    ensures BlundersFrom(h, ai, i, key) > 0
  {
    assert BlunderTest(h, ai, key)(j);
    CountIncludes(BlunderTest(h, ai, key), i, Examinable(h), j);
  }

  /** A counted tactic comes from some ply from `i` on... */
  lemma TacticWitness(h: seq<Snapshot>, ai: Color, i: nat, key: (string, string)) returns (j: nat)
    requires TacticsFrom(h, ai, i, key) > 0
    ensures i <= j && TacticFiled(h, ai, j, key)
  {
    j := CountWitness(TacticTest(h, ai, key), i, Examinable(h));
    assert TacticTest(h, ai, key)(j);
  }

  /** ...and every tactic from ply `i` on is counted. */
  lemma TacticCounted(h: seq<Snapshot>, ai: Color, i: nat, j: nat, key: (string, string))
    requires i <= j && TacticFiled(h, ai, j, key)
    ensures TacticsFrom(h, ai, i, key) > 0
  {
    assert TacticTest(h, ai, key)(j);
    CountIncludes(TacticTest(h, ai, key), i, Examinable(h), j);
  }

  /** `record_game`: counts the game; for a won or drawn game with a history,
      credits the lines of the first 20 plies of the final log; files the
      computer's blunders and tactics. */
  function RecordGame(s: Store, h: seq<Snapshot>, result: string, ai: Color): (r: Store)
    ensures r.gamesPlayed == s.gamesPlayed + 1
    ensures |h| == 0 || !(AiWon(result, ai) || IsDrawResult(result)) ==> r.openings == s.openings
    ensures |h| == 0 ==> r.blunders == s.blunders && r.tactics == s.tactics
    ensures DistinctLines(s.openings) ==> DistinctLines(r.openings)
  {
    var isDraw := IsDrawResult(result);
    var won := AiWon(result, ai);
    var s0 := s.(gamesPlayed := s.gamesPlayed + 1);
    if |h| == 0 then s0
    else
      var log := h[|h| - 1].moveLog;
      var n := if |log| < OpeningPlies then |log| else OpeningPlies;
      var o := if won || isDraw then CreditLines(s0.openings, log, 0, n, isDraw) else s0.openings;
      CreditLinesEffect(s0.openings, log, 0, n, isDraw);
      Detect(s0.(openings := o), h, ai, 0)
  }

  /** After a recorded game every counter has risen by the findings filed under it. */
  lemma RecordGameCounts(s: Store, h: seq<Snapshot>, result: string, ai: Color, key: (string, string))
    requires |h| > 0
    ensures var r := RecordGame(s, h, result, ai);
      && Count(r.blunders, key) == Count(s.blunders, key) + BlundersFrom(h, ai, 0, key)
      && Count(r.tactics, key) == Count(s.tactics, key) + TacticsFrom(h, ai, 0, key)
  {
    var log := h[|h| - 1].moveLog;
    var n := if |log| < OpeningPlies then |log| else OpeningPlies;
    var isDraw := IsDrawResult(result);
    var s0 := s.(gamesPlayed := s.gamesPlayed + 1);
    var o := if AiWon(result, ai) || isDraw then CreditLines(s0.openings, log, 0, n, isDraw) else s0.openings;
    DetectCounts(s0.(openings := o), h, ai, 0, key);
  }

  /** After a recorded game every opening prefix of a won or drawn game is
      credited with its result, and every other line is as it was. */
  lemma RecordGameLines(s: Store, h: seq<Snapshot>, result: string, ai: Color, line: string)
    requires |h| > 0
    ensures var r := RecordGame(s, h, result, ai);
      var log := h[|h| - 1].moveLog;
      var n := if |log| < OpeningPlies then |log| else OpeningPlies;
      && ((AiWon(result, ai) || IsDrawResult(result)) && (exists j :: 0 <= j < n && line == PrefixKey(log, j)) ==>
            Lookup(r.openings, line) == Some(Credit(Before(s.openings, line), IsDrawResult(result))))
      && (!(exists j :: 0 <= j < n && line == PrefixKey(log, j)) ==> Lookup(r.openings, line) == Lookup(s.openings, line))
  {
    var log := h[|h| - 1].moveLog;
    var n := if |log| < OpeningPlies then |log| else OpeningPlies;
    var isDraw := IsDrawResult(result);
    var s0 := s.(gamesPlayed := s.gamesPlayed + 1);
    CreditLinesEffect(s0.openings, log, 0, n, isDraw);
  }

  /** Recording a game whose log entries hold one space each keeps every
      stored line odd: each new line joins one to twenty such entries. */
  lemma RecordGameKeepsOddKeys(s: Store, h: seq<Snapshot>, result: string, ai: Color)
    requires OddKeys(s.openings)
    requires |h| > 0 ==> OneSpaceEach(h[|h| - 1].moveLog)
    ensures OddKeys(RecordGame(s, h, result, ai).openings)
  {
    var r := RecordGame(s, h, result, ai);
    if |h| > 0 {
      var log := h[|h| - 1].moveLog;
      var n := if |log| < OpeningPlies then |log| else OpeningPlies;
      forall k | k in Lines(r.openings)
        ensures SpaceCount(k) % 2 == 1
      {
        if j :| 0 <= j < n && k == PrefixKey(log, j) {
          assert OneSpaceEach(log[..j + 1]);
          JoinedSpaces(log[..j + 1]);
        } else {
          RecordGameLines(s, h, result, ai, k);
          LookupLines(r.openings, k);
          LookupLines(s.openings, k);
        }
      }
    }
  }

  /** No stored line has a loss on it: `record_game` credits only wins and draws. */
  ghost predicate NoLosses(o: seq<(string, Stats)>) {
    forall k :: Lookup(o, k).Some? ==> Lookup(o, k).value.l == 0
  }

  lemma RecordGameKeepsNoLosses(s: Store, h: seq<Snapshot>, result: string, ai: Color)
    requires NoLosses(s.openings)
    ensures NoLosses(RecordGame(s, h, result, ai).openings)
  {
    var r := RecordGame(s, h, result, ai);
    if |h| > 0 {
      forall k | Lookup(r.openings, k).Some?
        ensures Lookup(r.openings, k).value.l == 0
      {
        RecordGameLines(s, h, result, ai, k);
      }
    }
  }

  /** With the corrected child test, after a won or drawn game every line of
      its opening is offered as the continuation of the moves before it:
      some continuation is suggested for each of the first twenty plies. */
  lemma RecordedLineSuggested(s: Store, h: seq<Snapshot>, result: string, ai: Color, i: nat)
    requires |h| > 0 && OneSpaceEach(h[|h| - 1].moveLog) && NoLosses(s.openings)
    requires AiWon(result, ai) || IsDrawResult(result)
    requires i < |h[|h| - 1].moveLog| && i < OpeningPlies
    ensures var log := h[|h| - 1].moveLog;
      GetOpeningMoveByEntry(RecordGame(s, h, result, ai).openings, log[..i]).Some?
  {
    var r := RecordGame(s, h, result, ai);
    var log := h[|h| - 1].moveLog;
    var key := PrefixKey(log, i);
    assert log[..i + 1] == log[..i] + [log[i]];
    RecordGameLines(s, h, result, ai, key);
    var st := Credit(Before(s.openings, key), IsDrawResult(result));
    assert Lookup(r.openings, key) == Some(st);
    assert st.l == 0;
    AdmittedInIntegers(st);
    assert log[i] in log;
    assert OneSpaceEach(log[..i]);
    EntrySuggested(r.openings, log[..i], log[i]);
  }

  /** A game credits no line with a loss, and a win only when the computer won. */
  lemma CreditIsWinOrDraw(st: Stats, result: string, ai: Color)
    requires AiWon(result, ai) || IsDrawResult(result)
    ensures Credit(st, IsDrawResult(result)).l == st.l
    ensures Credit(st, IsDrawResult(result)).w == st.w + (if AiWon(result, ai) then 1 else 0)
    ensures Credit(st, IsDrawResult(result)).d == st.d + (if IsDrawResult(result) then 1 else 0)
  {
  }
}
