/**
 * String operations with the JavaScript semantics the source uses:
 * `String.prototype.split` with a one-character separator, its inverse
 * `Array.prototype.join`, `String.prototype.trim`, and the decimal
 * rendering of a non-negative integer (`Number.prototype.toString`)
 * together with its inverse (`parseInt`).
 */
module Text {

  /** Number of occurrences of `d` in `s`. */
  function Count(s: string, d: char): nat {
    if |s| == 0 then 0 else (if s[0] == d then 1 else 0) + Count(s[1..], d)
  }

  /**
   * `s.split(d)`: cut at every occurrence of `d`, keeping empty segments;
   * the result always has at least one element and one more element than
   * there are separators.
   */
  function Split(s: string, d: char): (parts: seq<string>)
    ensures |parts| >= 1
    decreases |s|
  {
    if |s| == 0 then [""]
    else
      var rest := Split(s[1..], d);
      if s[0] == d then [""] + rest
      else [[s[0]] + rest[0]] + rest[1..]
  }

  /** `parts.join(d)`. */
  function Join(parts: seq<string>, d: char): string
    decreases |parts|
  {
    if |parts| == 0 then ""
    else if |parts| == 1 then parts[0]
    else parts[0] + [d] + Join(parts[1..], d)
  }

  /** A split has one more piece than there are separators. */
  lemma {:induction false} SplitLength(s: string, d: char)
    ensures |Split(s, d)| == Count(s, d) + 1
    decreases |s|
  {
    if |s| > 0 {
      SplitLength(s[1..], d);
    }
  }

  /** No piece of a split contains the separator. */
  lemma {:induction false} SplitPieceLacksSeparator(s: string, d: char, i: nat)
    requires i < |Split(s, d)|
    ensures d !in Split(s, d)[i]
    decreases |s|
  {
    if |s| > 0 {
      var rest := Split(s[1..], d);
      if s[0] == d {
        if i > 0 {
          SplitPieceLacksSeparator(s[1..], d, i - 1);
        }
      } else if i == 0 {
        SplitPieceLacksSeparator(s[1..], d, 0);
        assert Split(s, d)[0] == [s[0]] + rest[0];
      } else {
        SplitPieceLacksSeparator(s[1..], d, i);
      }
    }
  }

  /** One step of `split`: a leading character either ends the first piece or joins it. */
  lemma SplitCons(c: char, t: string, d: char)
    ensures c == d ==> Split([c] + t, d) == [""] + Split(t, d)
    ensures c != d ==> Split([c] + t, d) == [[c] + Split(t, d)[0]] + Split(t, d)[1..]
  {
    var s := [c] + t;
    assert s[0] == c && s[1..] == t;
  }

  /** Joining a piece in front of at least one other puts a separator between them. */
  lemma JoinCons(x: string, ps: seq<string>, d: char)
    requires |ps| >= 1
    ensures Join([x] + ps, d) == x + [d] + Join(ps, d)
  {
    var q := [x] + ps;
    assert q[0] == x && q[1..] == ps;
  }

  /** Joining one more piece at the end puts a separator before it. */
  lemma {:induction false} JoinSnoc(ps: seq<string>, x: string, d: char)
    requires |ps| >= 1
    ensures Join(ps + [x], d) == Join(ps, d) + [d] + x
    decreases |ps|
  {
    if |ps| == 1 {
      assert ps + [x] == [ps[0]] + [x];
      JoinCons(ps[0], [x], d);
    } else {
      JoinSnoc(ps[1..], x, d);
      assert ps + [x] == [ps[0]] + (ps[1..] + [x]);
      assert ps == [ps[0]] + ps[1..];
      JoinCons(ps[0], ps[1..] + [x], d);
      JoinCons(ps[0], ps[1..], d);
    }
  }

  /** A string holding the separator has at least one occurrence of it. */
  lemma {:induction false} CountPositive(s: string, d: char)
    requires d in s
    ensures Count(s, d) >= 1
    decreases |s|
  {
    if s[0] != d {
      var i :| 0 <= i < |s| && s[i] == d;
      assert s[1..][i - 1] == d;
      CountPositive(s[1..], d);
    }
  }

  /** Joining the pieces of a split gives back the original string. */
  lemma {:induction false} JoinSplit(s: string, d: char)
    ensures Join(Split(s, d), d) == s
    decreases |s|
  {
    if |s| > 0 {
      var c, t := s[0], s[1..];
      var rest := Split(t, d);
      assert s == [c] + t;
      JoinSplit(t, d);
      SplitCons(c, t, d);
      if c == d {
        JoinCons("", rest, d);
      } else if |rest| == 1 {
        assert Join(Split(s, d), d) == [c] + rest[0];
      } else {
        JoinCons([c] + rest[0], rest[1..], d);
        JoinCons(rest[0], rest[1..], d);
        assert rest == [rest[0]] + rest[1..];
      }
    }
  }

  /** A string without the separator splits into itself alone. */
  lemma {:induction false} SplitWithoutSeparator(s: string, d: char)
    requires d !in s
    ensures Split(s, d) == [s]
    decreases |s|
  {
    if |s| > 0 {
      SplitWithoutSeparator(s[1..], d);
      assert s == [s[0]] + s[1..];
    }
  }

  /** Prepending an element to a concatenation prepends it to the first part. */
  lemma ConsAppend<T>(x: T, p: seq<T>, q: seq<T>)
    ensures [x] + (p + q) == ([x] + p) + q
  {
  }

  /** The head and tail of a concatenation whose first part is non-empty. */
  lemma AppendHeadTail<T>(p: seq<T>, q: seq<T>)
    requires |p| >= 1
    ensures (p + q)[0] == p[0] && (p + q)[1..] == p[1..] + q
  {
  }

  /**
   * Splitting distributes over a separator: the pieces of `a + d + b` are the
   * pieces of `a` followed by the pieces of `b`.
   */
  lemma {:induction false} SplitAroundSeparator(a: string, b: string, d: char)
    ensures Split(a + [d] + b, d) == Split(a, d) + Split(b, d)
    decreases |a|
  {
    if |a| == 0 {
      assert a + [d] + b == [d] + b;
      SplitCons(d, b, d);
    } else {
      var c, rest := a[0], a[1..];
      var pa, pb := Split(rest, d), Split(b, d);
      assert a == [c] + rest;
      assert a + [d] + b == [c] + (rest + [d] + b);
      SplitAroundSeparator(rest, b, d);
      SplitCons(c, rest + [d] + b, d);
      SplitCons(c, rest, d);
      if c == d {
        ConsAppend("", pa, pb);
      } else {
        AppendHeadTail(pa, pb);
        ConsAppend([c] + pa[0], pa[1..], pb);
      }
    }
  }

  /** A separator-free leading piece splits off ahead of the pieces of the rest. */
  lemma SplitLeading(a: string, rest: string, d: char)
    requires d !in a
    ensures Split(a + [d] + rest, d) == [a] + Split(rest, d)
  {
    SplitAroundSeparator(a, rest, d);
    SplitWithoutSeparator(a, d);
  }

  /** Two separator-free leading pieces split off ahead of the pieces of the rest. */
  lemma SplitTwoLeading(a: string, b: string, rest: string, d: char)
    requires d !in a && d !in b
    ensures Split(a + [d] + b + [d] + rest, d) == [a, b] + Split(rest, d)
  {
    var brest := b + [d] + rest;
    SplitLeading(b, rest, d);
    SplitLeading(a, brest, d);
    assert a + [d] + b + [d] + rest == a + [d] + brest;
  }

  /** The first piece of a split is the whole string exactly when the separator does not occur. */
  lemma {:induction false} FirstPieceIsWhole(s: string, d: char)
    ensures Split(s, d)[0] == s <==> d !in s
    decreases |s|
  {
    if |s| > 0 {
      FirstPieceIsWhole(s[1..], d);
      var rest := Split(s[1..], d);
      if s[0] != d {
        assert Split(s, d)[0] == [s[0]] + rest[0];
        assert s == [s[0]] + s[1..];
        assert d in s <==> d in s[1..];
      } else {
        assert s[0] in s;
      }
    }
  }

  /** Splitting the join of separator-free pieces gives the pieces back. */
  lemma {:induction false} SplitJoin(parts: seq<string>, d: char)
    requires |parts| >= 1
    requires forall i :: 0 <= i < |parts| ==> d !in parts[i]
    ensures Split(Join(parts, d), d) == parts
    decreases |parts|
  {
    if |parts| == 1 {
      SplitWithoutSeparator(parts[0], d);
    } else {
      SplitJoin(parts[1..], d);
      SplitAroundSeparator(parts[0], Join(parts[1..], d), d);
      SplitWithoutSeparator(parts[0], d);
      assert parts == [parts[0]] + parts[1..];
    }
  }

  /** The last piece of a split: `parts[parts.length - 1]`. */
  function LastPiece(s: string, d: char): (r: string)
    ensures d !in r
  {
    var parts := Split(s, d);
    SplitPieceLacksSeparator(s, d, |parts| - 1);
    parts[|parts| - 1]
  }

  /** The last piece is a suffix of the string, and the whole string when the separator is absent. */
  lemma {:induction false} LastPieceIsSuffix(s: string, d: char)
    ensures |LastPiece(s, d)| <= |s|
    ensures LastPiece(s, d) == s[|s| - |LastPiece(s, d)|..]
    ensures d !in s ==> LastPiece(s, d) == s
    ensures d in s ==> s[|s| - |LastPiece(s, d)| - 1] == d
    decreases |s|
  {
    if d !in s {
      SplitWithoutSeparator(s, d);
    } else {
      var i :| 0 <= i < |s| && s[i] == d;
      var j := LastIndex(s, d, |s|);
      var a, b := s[..j], s[j + 1..];
      assert s == a + [d] + b;
      SplitAroundSeparator(a, b, d);
      SplitWithoutSeparator(b, d);
      assert Split(s, d)[|Split(s, d)| - 1] == b;
    }
  }

  /** The last index below `end` where `d` occurs, or -1 when there is none. */
  function LastIndex(s: string, d: char, end: nat): (j: int)
    requires end <= |s|
    ensures -1 <= j < end
    ensures j >= 0 ==> s[j] == d
    ensures forall k :: j < k < end ==> s[k] != d
    decreases end
  {
    if end == 0 then -1
    else if s[end - 1] == d then end - 1
    else LastIndex(s, d, end - 1)
  }

  /** `s.startsWith(p)`. */
  predicate StartsWith(s: string, p: string) {
    |p| <= |s| && s[..|p|] == p
  }

  // ---------------------------------------------------------------------
  // trim

  /**
   * The characters `String.prototype.trim` removes: the ECMAScript
   * WhiteSpace code points (including the Unicode space separators) and
   * the LineTerminator code points.
   */
  predicate IsJsWhite(c: char) {
    || '\t' <= c <= '\r'
    || c == ' ' || c == '\U{00A0}' || c == '\U{1680}'
    || '\U{2000}' <= c <= '\U{200A}'
    || c == '\U{2028}' || c == '\U{2029}' || c == '\U{202F}' || c == '\U{205F}'
    || c == '\U{3000}' || c == '\U{FEFF}'
  }

  /** Every character of `s` is in the class `white`. */
  predicate AllIn(s: string, white: char -> bool) {
    forall i :: 0 <= i < |s| ==> white(s[i])
  }

  /** Every character of `s` is white space as `trim` understands it. */
  predicate AllWhite(s: string) {
    AllIn(s, IsJsWhite)
  }

  /** The first index at or after `i` whose character is not in the class, or `|s|`. */
  function SkipForward(s: string, white: char -> bool, i: nat): (j: nat)
    requires i <= |s|
    ensures i <= j <= |s|
    ensures forall k :: i <= k < j ==> white(s[k])
    ensures j < |s| ==> !white(s[j])
    decreases |s| - i
  {
    if i < |s| && white(s[i]) then SkipForward(s, white, i + 1) else i
  }

  /** The least index `i <= j` such that `s[i..j]` is all in the class. */
  function SkipBackward(s: string, white: char -> bool, j: nat): (i: nat)
    requires j <= |s|
    ensures i <= j
    ensures forall k :: i <= k < j ==> white(s[k])
    ensures i > 0 ==> !white(s[i - 1])
    decreases j
  {
    if j > 0 && white(s[j - 1]) then SkipBackward(s, white, j - 1) else j
  }

  /** Drop the leading characters of the class `white`. */
  function TrimStart(s: string, white: char -> bool): string {
    s[SkipForward(s, white, 0)..]
  }

  /** Drop the trailing characters of the class `white`. */
  function TrimEnd(s: string, white: char -> bool): string {
    s[..SkipBackward(s, white, |s|)]
  }

  /** Drop the characters of the class `white` from both ends. */
  function TrimBy(s: string, white: char -> bool): (r: string)
    ensures |r| <= |s|
    ensures r != "" ==> !white(r[0]) && !white(r[|r| - 1])
  {
    TrimEnd(TrimStart(s, white), white)
  }

  /**
   * `s.trim()`: the longest infix of `s` that neither starts nor ends with
   * white space, obtained by removing only white space from both ends.
   */
  function Trim(s: string): (r: string)
    ensures |r| <= |s|
    ensures r != "" ==> !IsJsWhite(r[0]) && !IsJsWhite(r[|r| - 1])
  {
    TrimBy(s, IsJsWhite)
  }

  /** Everything `TrimStart` drops is in the class. */
  lemma TrimStartDropsOnlyClass(s: string, white: char -> bool)
    ensures |TrimStart(s, white)| <= |s|
    ensures AllIn(s[..|s| - |TrimStart(s, white)|], white)
  {
    var i := SkipForward(s, white, 0);
    assert forall k :: 0 <= k < i ==> s[..i][k] == s[k];
  }

  /** Everything `TrimEnd` drops is in the class. */
  lemma TrimEndDropsOnlyClass(s: string, white: char -> bool)
    ensures |TrimEnd(s, white)| <= |s|
    ensures AllIn(s[|TrimEnd(s, white)|..], white)
  {
    var j := SkipBackward(s, white, |s|);
    assert forall k :: 0 <= k < |s| - j ==> s[j..][k] == s[j + k];
  }

  /** A prefix of a suffix is an infix. */
  lemma TakeOfDrop<T>(s: seq<T>, a: nat, n: nat)
    requires a + n <= |s|
    ensures s[a..][..n] == s[a..a + n]
  {
  }

  /**
   * The trimmed string is the infix of the original that starts after the
   * leading characters of the class, with only the class cut off either end.
   */
  lemma TrimIsInfix(s: string, white: char -> bool)
    ensures var a, r := |s| - |TrimStart(s, white)|, TrimBy(s, white);
      && a + |r| <= |s| && r == s[a..a + |r|]
      && AllIn(s[..a], white) && AllIn(s[a + |r|..], white)
  {
    var t := TrimStart(s, white);
    var r := TrimEnd(t, white);
    var a := |s| - |t|;
    TakeOfDrop(s, a, |r|);
    TrimStartDropsOnlyClass(s, white);
    assert AllIn(s[a + |r|..], white) by {
      TrimEndDropsOnlyClass(t, white);
      assert s[a + |r|..] == t[|r|..];
    }
  }

  /** Trimming keeps no character that was not in the original. */
  lemma TrimKeepsAbsence(s: string, c: char)
    requires c !in s
    ensures c !in Trim(s)
  {
    TrimIsInfix(s, IsJsWhite);
  }

  /** Only white space trims to the empty string. */
  lemma TrimEmptyIffAllWhite(s: string)
    ensures Trim(s) == "" <==> AllWhite(s)
  {
    var t := TrimStart(s, IsJsWhite);
    TrimStartDropsOnlyClass(s, IsJsWhite);
    TrimEndDropsOnlyClass(t, IsJsWhite);
    assert s == s[..|s| - |t|] + t;
    assert t != "" ==> s[|s| - |t|] == t[0];
  }

  /** Trimming twice is trimming once. */
  lemma TrimIdempotent(s: string)
    ensures Trim(Trim(s)) == Trim(s)
  {
    var r := Trim(s);
    if r != "" {
      assert TrimStart(r, IsJsWhite) == r;
      assert TrimEnd(r, IsJsWhite) == r;
    }
  }

  // ---------------------------------------------------------------------
  // decimal integers

  predicate IsDigit(c: char) {
    '0' <= c <= '9'
  }

  function DigitChar(n: nat): (c: char)
    requires n < 10
    ensures IsDigit(c)
  {
    ['0', '1', '2', '3', '4', '5', '6', '7', '8', '9'][n]
  }

  function DigitValue(c: char): (n: nat)
    requires IsDigit(c)
    ensures n < 10
  {
    (c as int - '0' as int) as nat
  }

  /** `n.toString()` for a non-negative integer: a non-empty string of decimal digits. */
  function Decimal(n: nat): (r: string)
    ensures |r| >= 1
    ensures forall i :: 0 <= i < |r| ==> IsDigit(r[i])
    decreases n
  {
    if n < 10 then [DigitChar(n)] else Decimal(n / 10) + [DigitChar(n % 10)]
  }

  /** `parseInt(s, 10)` on a string made only of decimal digits. */
  function ParseDecimal(s: string): nat
    requires forall i :: 0 <= i < |s| ==> IsDigit(s[i])
    decreases |s|
  {
    if |s| == 0 then 0 else 10 * ParseDecimal(s[..|s| - 1]) + DigitValue(s[|s| - 1])
  }

  /** Reading back a rendered number gives the number. */
  lemma {:induction false} ParseDecimalOfDecimal(n: nat)
    ensures ParseDecimal(Decimal(n)) == n
    decreases n
  {
    var r := Decimal(n);
    if n >= 10 {
      ParseDecimalOfDecimal(n / 10);
      assert r[..|r| - 1] == Decimal(n / 10);
    }
    assert DigitValue(DigitChar(n % 10)) == n % 10;
  }

  /** A rendered number contains no separator character such as `-`. */
  lemma DecimalHasNoDash(n: nat)
    ensures '-' !in Decimal(n)
  {
    var r := Decimal(n);
    assert forall i :: 0 <= i < |r| ==> r[i] != '-';
  }
}
