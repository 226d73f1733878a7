/** Shared vocabulary of the chess model: an optional value and the handful of
    string operations the program borrows from its runtime (`str` of an
    integer, `join`, `split`, `strip`, `lower` and the substring test). */
module Common {

  datatype Option<+T> = None | Some(value: T)

  // ---------------------------------------------------------------------------
  // Decimal numerals

  predicate IsDigit(ch: char) {
    '0' <= ch <= '9'
  }

  predicate AllDigits(s: string) {
    forall i :: 0 <= i < |s| ==> IsDigit(s[i])
  }

  function DigitChar(d: nat): (ch: char)
    requires d < 10
    ensures IsDigit(ch)
    ensures ch as int - '0' as int == d
  {
    (d + '0' as int) as char
  }

  /** The decimal numeral of `n`, as `str(n)` writes it. */
  function NatToString(n: nat): (s: string)
    ensures |s| >= 1 && AllDigits(s)
    ensures n < 10 <==> |s| == 1
    decreases n
  {
    if n < 10 then [DigitChar(n)] else NatToString(n / 10) + [DigitChar(n % 10)]
  }

  /** Reads a string of decimal digits back as a number. */
  function ParseDigits(s: string): nat
    requires AllDigits(s)
  {
    if |s| == 0 then 0 else ParseDigits(s[..|s| - 1]) * 10 + (s[|s| - 1] as int - '0' as int)
  }

  lemma {:induction false} ParseNatToString(n: nat)
    ensures ParseDigits(NatToString(n)) == n
    decreases n
  {
    if n >= 10 {
      ParseNatToString(n / 10);
      var s := NatToString(n);
      assert s[..|s| - 1] == NatToString(n / 10);
    }
  }

  /** Distinct numbers have distinct numerals. */
  lemma NatToStringInjective(a: nat, b: nat)
    ensures NatToString(a) == NatToString(b) <==> a == b
  {
    ParseNatToString(a);
    ParseNatToString(b);
  }

  /** `str(i)` for any integer. */
  function IntToString(i: int): (s: string)
    ensures |s| >= 1
    ensures 0 <= i < 10 ==> s == [DigitChar(i)]
  {
    if i < 0 then "-" + NatToString(-i) else NatToString(i)
  }

  // ---------------------------------------------------------------------------
  // Joining and splitting

  /** `sep.join(parts)`. */
  function Join(sep: string, parts: seq<string>): string
  {
    if |parts| == 0 then ""
    else if |parts| == 1 then parts[0]
    else parts[0] + sep + Join(sep, parts[1..])
  }

  /** `s.split(sep)` for a one-character separator: empty fields are kept. */
  function SplitOn(s: string, sep: char): (parts: seq<string>)
    ensures |parts| >= 1
  {
    if |s| == 0 then [""]
    else
      var rest := SplitOn(s[1..], sep);
      if s[0] == sep then [""] + rest else [[s[0]] + rest[0]] + rest[1..]
  }

  lemma {:induction false} SplitOnPlain(x: string, sep: char)
    requires sep !in x
    ensures SplitOn(x, sep) == [x]
  {
    if |x| > 0 {
      SplitOnPlain(x[1..], sep);
      assert [x[0]] + x[1..] == x;
    }
  }

  lemma {:induction false} SplitOnFirst(x: string, sep: char, y: string)
    requires sep !in x
    ensures SplitOn(x + [sep] + y, sep) == [x] + SplitOn(y, sep)
  {
    if |x| == 0 {
      assert x + [sep] + y == [sep] + y;
      assert ([sep] + y)[1..] == y;
    } else {
      var s := x + [sep] + y;
      assert s[1..] == x[1..] + [sep] + y;
      SplitOnFirst(x[1..], sep, y);
      assert [x[0]] + x[1..] == x;
    }
  }

  /** Splitting a join on its separator gives the parts back when no part
      contains the separator. */
  lemma {:induction false} SplitJoin(parts: seq<string>, sep: char)
    requires |parts| >= 1
    requires forall i :: 0 <= i < |parts| ==> sep !in parts[i]
    ensures SplitOn(Join([sep], parts), sep) == parts
  {
    if |parts| == 1 {
      SplitOnPlain(parts[0], sep);
    } else {
      SplitJoin(parts[1..], sep);
      SplitOnFirst(parts[0], sep, Join([sep], parts[1..]));
      assert [parts[0]] + parts[1..] == parts;
    }
  }

  /** Two texts that each start with a field free of `sep` followed by `sep`
      agree on that field and on the rest. */
  lemma CutAtSeparator(x: string, y: string, x2: string, y2: string, sep: char)
    requires sep !in x && sep !in x2
    requires x + [sep] + y == x2 + [sep] + y2
    ensures x == x2 && y == y2
  {
    var s := x + [sep] + y;
    var k := if |x| < |x2| then |x| else |x2|;
    assert (s[k] == sep) == (k == |x|);
    assert ((x2 + [sep] + y2)[k] == sep) == (k == |x2|);
    assert |x| == |x2|;
    assert x == s[..|x|];
    assert x2 == (x2 + [sep] + y2)[..|x2|];
    assert y == s[|x| + 1..];
    assert y2 == (x2 + [sep] + y2)[|x2| + 1..];
  }

  /** A separator that occurs in no part occurs in the join only if it is
      the separator itself. */
  lemma {:induction false} JoinAvoids(sep: string, parts: seq<string>, ch: char)
    requires ch !in sep
    requires forall i :: 0 <= i < |parts| ==> ch !in parts[i]
    ensures ch !in Join(sep, parts)
  {
    if |parts| > 1 {
      JoinAvoids(sep, parts[1..], ch);
    }
  }

  // ---------------------------------------------------------------------------
  // Whitespace, case and substrings

  /** The characters Python's `str.isspace` accepts, which is what `strip()`
      and `split()` without arguments remove. */
  predicate IsSpace(ch: char) {
    var n := ch as int;
    (9 <= n <= 13) || (28 <= n <= 32) || n == 0x85 || n == 0xA0 || n == 0x1680
    || (0x2000 <= n <= 0x200A) || n == 0x2028 || n == 0x2029 || n == 0x202F
    || n == 0x205F || n == 0x3000
  }

  function TrimLeft(s: string): (t: string)
    ensures |t| <= |s| && t == s[|s| - |t|..]
    ensures |t| > 0 ==> !IsSpace(t[0])
  {
    if |s| > 0 && IsSpace(s[0]) then TrimLeft(s[1..]) else s
  }

  function TrimRight(s: string): (t: string)
    ensures |t| <= |s| && t == s[..|t|]
    ensures |t| > 0 ==> !IsSpace(t[|t| - 1])
  {
    if |s| > 0 && IsSpace(s[|s| - 1]) then TrimRight(s[..|s| - 1]) else s
  }

  /** `s.strip()`. */
  function Strip(s: string): string {
    TrimRight(TrimLeft(s))
  }

  /** Length of the run of non-space characters at the front of `s`. */
  function WordLength(s: string): (n: nat)
    ensures n <= |s|
    ensures forall i :: 0 <= i < n ==> !IsSpace(s[i])
    ensures n < |s| ==> IsSpace(s[n])
  {
    if |s| == 0 || IsSpace(s[0]) then 0 else 1 + WordLength(s[1..])
  }

  predicate NoSpace(w: string) {
    forall i :: 0 <= i < |w| ==> !IsSpace(w[i])
  }

  /** How many times the plain space ' ' occurs in `s`. */
  function SpaceCount(s: string): nat {
    if |s| == 0 then 0 else (if s[0] == ' ' then 1 else 0) + SpaceCount(s[1..])
  }

  lemma {:induction false} SpaceCountAppend(a: string, b: string)
    ensures SpaceCount(a + b) == SpaceCount(a) + SpaceCount(b)
  {
    if |a| == 0 {
      assert a + b == b;
    } else {
      assert (a + b)[1..] == a[1..] + b;
      SpaceCountAppend(a[1..], b);
    }
  }

  /** A text has no space exactly when it counts none. */
  lemma {:induction false} SpaceCountZero(s: string)
    ensures SpaceCount(s) == 0 <==> ' ' !in s
  {
    if |s| > 0 {
      SpaceCountZero(s[1..]);
      assert s == [s[0]] + s[1..];
    }
  }

  /** `s.split()`: the maximal runs of non-space characters, in order. */
  function Words(s: string): (ws: seq<string>)
    ensures forall w <- ws :: |w| > 0 && NoSpace(w)
    decreases |s|
  {
    var t := TrimLeft(s);
    if |t| == 0 then []
    else
      var n := WordLength(t);
      var w := t[..n];
      assert |w| > 0 && NoSpace(w);
      [w] + Words(t[n..])
  }

  /** `lower()` on one character; only the ASCII capitals change. */
  function ToLower(ch: char): (r: char)
    ensures 'A' <= ch <= 'Z' ==> r as int == ch as int + 32
    ensures !('A' <= ch <= 'Z') ==> r == ch
  {
    if 'A' <= ch <= 'Z' then (ch as int + 32) as char else ch
  }

  /** `s.lower()`. */
  function LowerString(s: string): (r: string)
    ensures |r| == |s|
  {
    if |s| == 0 then "" else [ToLower(s[0])] + LowerString(s[1..])
  }

  /** `lower()` works character by character. */
  lemma {:induction false} LowerStringAt(s: string)
    ensures forall i :: 0 <= i < |s| ==> LowerString(s)[i] == ToLower(s[i])
  {
    if |s| > 0 {
      LowerStringAt(s[1..]);
      assert forall i :: 1 <= i < |s| ==> s[1..][i - 1] == s[i];
    }
  }

  predicate StartsWith(s: string, prefix: string) {
    |prefix| <= |s| && s[..|prefix|] == prefix
  }

  /** `sub in s`. */
  predicate Contains(s: string, sub: string)
    decreases |s|
  {
    StartsWith(s, sub) || (|s| > 0 && Contains(s[1..], sub))
  }

  lemma {:induction false} ContainsAppended(a: string, sub: string, b: string)
    ensures Contains(a + sub + b, sub)
    decreases |a|
  {
    if |a| == 0 {
      assert (a + sub + b)[..|sub|] == sub;
    } else {
      assert (a + sub + b)[1..] == a[1..] + sub + b;
      ContainsAppended(a[1..], sub, b);
    }
  }

  /** A text holding `sub` holds its first character. */
  lemma {:induction false} ContainsFirst(s: string, sub: string)
    requires |sub| > 0 && Contains(s, sub)
    ensures sub[0] in s
    decreases |s|
  {
    if !StartsWith(s, sub) {
      ContainsFirst(s[1..], sub);
    } else {
      assert s[0] == sub[0];
    }
  }
}
