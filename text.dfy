/**
 * The JavaScript string primitives the core is written with (`indexOf`,
 * `includes`, `split`, `join`, `replace` of a literal, `trim`, number to
 * decimal text and back), each defined once with the facts the rest of the
 * model needs about it.
 */
module Text {

  /** `p` occurs in `s` starting at index `i`. */
  predicate OccursAt(s: string, p: string, i: int) {
    0 <= i && i + |p| <= |s| && s[i..i + |p|] == p
  }

  /** `p` occurs nowhere in `s`. */
  ghost predicate Absent(s: string, p: string) {
    forall i :: !OccursAt(s, p, i)
  }

  lemma OccursShift(s: string, p: string, j: int)
    requires |s| > 0 && j >= 1
    ensures OccursAt(s, p, j) <==> OccursAt(s[1..], p, j - 1)
  {
    if j + |p| <= |s| {
      assert s[j..j + |p|] == s[1..][j - 1..j - 1 + |p|];
    }
  }

  /** `s.indexOf(p)`: the first index at which `p` occurs, or -1. */
  function IndexOf(s: string, p: string): (r: int)
    ensures -1 <= r <= |s|
    ensures r >= 0 ==> OccursAt(s, p, r)
    ensures forall j :: 0 <= j && (r < 0 || j < r) ==> !OccursAt(s, p, j)
    decreases |s|
  {
    if |s| < |p| then -1
    else if s[..|p|] == p then 0
    else
      var k := IndexOf(s[1..], p);
      assert forall j :: 1 <= j ==> (OccursAt(s, p, j) <==> OccursAt(s[1..], p, j - 1)) by {
        forall j | 1 <= j { OccursShift(s, p, j); }
      }
      if k < 0 then -1 else k + 1
  }

  /** `s.indexOf(p) > -1`, also `s.includes(p)`. */
  predicate Contains(s: string, p: string) {
    IndexOf(s, p) >= 0
  }

  lemma ContainsIff(s: string, p: string)
    ensures Contains(s, p) <==> !Absent(s, p)
  {
    if !Contains(s, p) {
      forall i ensures !OccursAt(s, p, i) {
        if i < 0 {} else {}
      }
    }
  }

  /** The first index is the only candidate before which `p` is absent. */
  lemma IndexOfIs(s: string, p: string, k: int)
    requires OccursAt(s, p, k)
    requires forall j :: 0 <= j < k ==> !OccursAt(s, p, j)
    ensures IndexOf(s, p) == k
  {
  }

  /** `s.split(p)[0]`: the text before the first occurrence of `p`. */
  function Before(s: string, p: string): (r: string)
    ensures |r| <= |s| && r == s[..|r|]
    ensures IndexOf(s, p) < 0 ==> r == s
    ensures IndexOf(s, p) >= 0 ==> |r| == IndexOf(s, p) && s == r + p + s[IndexOf(s, p) + |p|..]
    ensures Absent(r, p) || |p| == 0
  {
    var i := IndexOf(s, p);
    if i < 0 then s
    else
      assert forall j :: OccursAt(s[..i], p, j) ==> OccursAt(s, p, j) by {
        forall j | OccursAt(s[..i], p, j) ensures OccursAt(s, p, j) {
          assert s[..i][j..j + |p|] == s[j..j + |p|];
        }
      }
      s[..i]
  }

  /** `s.split(p)[1]` where `p` occurs: the text between the first and the
      second occurrence of `p` (or the end of `s`). */
  function SecondPiece(s: string, p: string): (r: string)
    requires Contains(s, p)
  {
    var i := IndexOf(s, p);
    assert OccursAt(s, p, i);
    Before(s[i + |p|..], p)
  }

  /** `s.replace(p, '')` with a literal pattern: the first occurrence of `p`
      is cut out, nothing else changes. */
  function RemoveFirst(s: string, p: string): (r: string)
    ensures IndexOf(s, p) < 0 ==> r == s
    ensures IndexOf(s, p) >= 0 ==> |r| == |s| - |p| && s == r[..IndexOf(s, p)] + p + r[IndexOf(s, p)..]
  {
    var i := IndexOf(s, p);
    if i < 0 then s
    else
      var r := s[..i] + s[i + |p|..];
      assert r[..i] == s[..i] && r[i..] == s[i + |p|..];
      assert s == s[..i] + s[i..i + |p|] + s[i + |p|..];
      r
  }

  /** Two adjacent occurrences make one of the concatenation, and back. */
  lemma OccursConcat(s: string, a: string, b: string, i: int)
    ensures OccursAt(s, a + b, i) <==> OccursAt(s, a, i) && OccursAt(s, b, i + |a|)
  {
    if OccursAt(s, a, i) && OccursAt(s, b, i + |a|) {
      assert s[i..i + |a| + |b|] == s[i..i + |a|] + s[i + |a|..i + |a| + |b|];
    }
    if OccursAt(s, a + b, i) {
      assert s[i..i + |a|] == s[i..i + |a| + |b|][..|a|];
      assert s[i + |a|..i + |a| + |b|] == s[i..i + |a| + |b|][|a|..];
    }
  }

  /** Nothing found: the whole string is the first piece. */
  lemma BeforeAbsent(s: string, p: string)
    requires Absent(s, p)
    ensures Before(s, p) == s
  {
    ContainsIff(s, p);
  }

  /** The first piece ends where the first occurrence starts. */
  lemma BeforeAt(s: string, p: string, k: int)
    requires OccursAt(s, p, k)
    requires forall j :: 0 <= j < k ==> !OccursAt(s, p, j)
    ensures Before(s, p) == s[..k]
  {
    IndexOfIs(s, p, k);
  }

  /** The second piece is the rest when the separator occurs first at `k`
      and never after it. */
  lemma SecondPieceAt(s: string, p: string, k: int)
    requires OccursAt(s, p, k)
    requires forall j :: 0 <= j < k ==> !OccursAt(s, p, j)
    requires Absent(s[k + |p|..], p)
    ensures Contains(s, p) && SecondPiece(s, p) == s[k + |p|..]
  {
    IndexOfIs(s, p, k);
    BeforeAbsent(s[k + |p|..], p);
  }

  lemma OccursInSlice(s: string, a: int, b: int, p: string, j: int)
    requires 0 <= a <= b <= |s| && OccursAt(s[a..b], p, j)
    ensures OccursAt(s, p, a + j)
  {
    var t := s[a..b];
    assert forall k :: j <= k < j + |p| ==> t[k] == s[a + k];
    assert t[j..j + |p|] == s[a + j..a + j + |p|];
  }

  lemma AbsentInSlice(s: string, a: int, b: int, p: string)
    requires 0 <= a <= b <= |s| && Absent(s, p)
    ensures Absent(s[a..b], p)
  {
    forall j | OccursAt(s[a..b], p, j) ensures false {
      OccursInSlice(s, a, b, p, j);
    }
  }

  /** `s` ends with `t`. */
  predicate EndsWith(s: string, t: string) {
    |t| <= |s| && s[|s| - |t|..] == t
  }

  lemma EndsWithAppended(x: string, t: string)
    ensures EndsWith(x + t, t)
  {
    assert (x + t)[|x|..] == t;
  }

  // Where an occurrence can lie in a concatenation.

  lemma OccursInLeft(x: string, y: string, p: string, i: int)
    requires OccursAt(x, p, i)
    ensures OccursAt(x + y, p, i)
  {
    assert (x + y)[i..i + |p|] == x[i..i + |p|];
  }

  lemma OccursInRight(x: string, y: string, p: string, j: int)
    requires OccursAt(y, p, j)
    ensures OccursAt(x + y, p, j + |x|)
  {
    assert (x + y)[j + |x|..j + |x| + |p|] == y[j..j + |p|];
  }

  lemma OccursInParts(x: string, y: string, p: string, i: int)
    requires OccursAt(x + y, p, i)
    ensures || (i + |p| <= |x| && OccursAt(x, p, i))
            || (i >= |x| && OccursAt(y, p, i - |x|))
            || (i < |x| < i + |p| && p[|x| - i] == y[0])
  {
    var s := x + y;
    if i + |p| <= |x| {
      assert s[i..i + |p|] == x[i..i + |p|];
    } else if i >= |x| {
      assert s[i..i + |p|] == y[i - |x|..i - |x| + |p|];
    } else {
      assert s[i..i + |p|][|x| - i] == s[|x|];
    }
  }

  lemma OccursChars(s: string, p: string, i: int)
    requires OccursAt(s, p, i)
    ensures forall k :: i <= k < i + |p| ==> s[k] == p[k - i]
  {
    forall k | i <= k < i + |p| ensures s[k] == p[k - i] {
      assert s[i..i + |p|][k - i] == s[k];
    }
  }

  /** A pattern without the character `c` lies wholly on one side of a `c`. */
  lemma OccursAroundSeparator(x: string, c: char, y: string, p: string, i: int)
    requires c !in p
    requires OccursAt(x + [c] + y, p, i)
    ensures OccursAt(x, p, i) || OccursAt(y, p, i - |x| - 1)
  {
    var s := x + [c] + y;
    OccursChars(s, p, i);
    assert s[|x|] == c;
    if i + |p| <= |x| {
      assert s[i..i + |p|] == x[i..i + |p|];
    } else if i > |x| {
      assert s[i..i + |p|] == y[i - |x| - 1..i - |x| - 1 + |p|];
    }
  }

  /** A pattern whose first character occurs nowhere else in it cannot start
      inside `x` and run into a `y` that begins with that character. */
  lemma OccursBeforeLead(x: string, y: string, p: string, i: int)
    requires |y| > 0 && |p| > 0 && y[0] == p[0] && p[0] !in p[1..]
    requires OccursAt(x + y, p, i) && i < |x|
    ensures OccursAt(x, p, i)
  {
    OccursInParts(x, y, p, i);
    assert forall k :: 1 <= k < |p| ==> p[1..][k - 1] == p[k];
  }

  /** A pattern cannot occur in a shorter text. */
  lemma AbsentShort(s: string, p: string)
    requires |s| < |p|
    ensures Absent(s, p)
  {
  }

  lemma AbsentConcat(x: string, y: string, p: string, c: char)
    requires c !in p && Absent(x, p) && Absent(y, p)
    ensures Absent(x + [c] + y, p)
  {
    forall i ensures !OccursAt(x + [c] + y, p, i) {
      if OccursAt(x + [c] + y, p, i) {
        OccursAroundSeparator(x, c, y, p, i);
      }
    }
  }

  lemma AbsentInParts(x: string, y: string, p: string)
    requires Absent(x + y, p)
    ensures Absent(x, p) && Absent(y, p)
  {
    forall i | OccursAt(x, p, i) ensures false { OccursInLeft(x, y, p, i); }
    forall j | OccursAt(y, p, j) ensures false { OccursInRight(x, y, p, j); }
  }

  // split and join on one separator character.

  /** `s.split(c)` for a one-character separator: never empty, no piece holds
      `c`, and joining the pieces with `c` gives `s` back. */
  function SplitOn(s: string, c: char): (r: seq<string>)
    ensures |r| >= 1
    ensures forall k :: 0 <= k < |r| ==> c !in r[k]
    ensures JoinWith(r, c) == s
    decreases |s|
  {
    if |s| == 0 then [""]
    else
      var rest := SplitOn(s[1..], c);
      if s[0] == c then
        assert JoinWith([""] + rest, c) == [c] + JoinWith(rest, c);
        [""] + rest
      else
        var r := [[s[0]] + rest[0]] + rest[1..];
        assert JoinWith(r, c) == [s[0]] + JoinWith(rest, c) by {
          if |rest| > 1 {
            assert r[1..] == rest[1..];
          }
        }
        r
  }

  /** `xs.join(c)`. */
  function JoinWith(xs: seq<string>, c: char): string
  {
    if |xs| == 0 then ""
    else if |xs| == 1 then xs[0]
    else xs[0] + [c] + JoinWith(xs[1..], c)
  }

  /** Joining one more piece adds the separator and the piece at the end. */
  lemma {:induction false} JoinWithSnoc(xs: seq<string>, x: string, c: char)
    requires |xs| >= 1
    ensures JoinWith(xs + [x], c) == JoinWith(xs, c) + [c] + x
    decreases |xs|
  {
    if |xs| > 1 {
      JoinWithSnoc(xs[1..], x, c);
      assert (xs + [x])[1..] == xs[1..] + [x];
    }
  }

  /** Splitting a join of separator-free pieces gives the pieces back. */
  lemma {:induction false} SplitJoin(xs: seq<string>, c: char)
    requires |xs| >= 1
    requires forall k :: 0 <= k < |xs| ==> c !in xs[k]
    ensures SplitOn(JoinWith(xs, c), c) == xs
  {
    if |xs| == 1 {
      SplitNoSeparator(xs[0], c);
    } else {
      SplitJoin(xs[1..], c);
      SplitPrefixed(xs[0], c, JoinWith(xs[1..], c));
      assert [xs[0]] + xs[1..] == xs;
    }
  }

  lemma {:induction false} SplitNoSeparator(s: string, c: char)
    requires c !in s
    ensures SplitOn(s, c) == [s]
    decreases |s|
  {
    if |s| > 0 {
      SplitNoSeparator(s[1..], c);
      assert [s[0]] + s[1..] == s;
    }
  }

  lemma {:induction false} SplitPrefixed(x: string, c: char, y: string)
    requires c !in x
    ensures SplitOn(x + [c] + y, c) == [x] + SplitOn(y, c)
    decreases |x|
  {
    if |x| == 0 {
      assert x + [c] + y == [c] + y;
      assert (x + [c] + y)[1..] == y;
    } else {
      var s := x + [c] + y;
      var rest := SplitOn(s[1..], c);
      assert s[1..] == x[1..] + [c] + y;
      SplitPrefixed(x[1..], c, y);
      assert rest[0] == x[1..] && rest[1..] == SplitOn(y, c);
      assert s[0] == x[0] && s[0] != c;
      assert [x[0]] + x[1..] == x;
    }
  }

  // JavaScript String.prototype.trim.

  /** The characters `trim` removes: ECMAScript WhiteSpace and
      LineTerminator (tab, vertical tab, form feed, space, no-break space,
      byte order mark, the other space separators, line feed, carriage
      return, line and paragraph separators). */
  predicate IsSpace(ch: char) {
    || ch == '\t' || ch == '\U{000B}' || ch == '\U{000C}' || ch == ' '
    || ch == '\U{00A0}' || ch == '\U{FEFF}' || ch == '\U{1680}'
    || ('\U{2000}' <= ch <= '\U{200A}') || ch == '\U{202F}' || ch == '\U{205F}'
    || ch == '\U{3000}' || ch == '\n' || ch == '\r' || ch == '\U{2028}' || ch == '\U{2029}'
  }

  function TrimStart(s: string): (r: string)
    ensures |r| <= |s| && r == s[|s| - |r|..]
    ensures |r| > 0 ==> !IsSpace(r[0])
    ensures forall k :: 0 <= k < |s| - |r| ==> IsSpace(s[k])
  {
    if |s| > 0 && IsSpace(s[0]) then TrimStart(s[1..]) else s
  }

  function TrimEnd(s: string): (r: string)
    ensures |r| <= |s| && r == s[..|r|]
    ensures |r| > 0 ==> !IsSpace(r[|r| - 1])
    ensures forall k :: |r| <= k < |s| ==> IsSpace(s[k])
  {
    if |s| > 0 && IsSpace(s[|s| - 1]) then TrimEnd(s[..|s| - 1]) else s
  }

  /** `s.trim()`: `s` without its leading and trailing white space. */
  function Trim(s: string): (r: string)
    ensures |r| > 0 ==> !IsSpace(r[0]) && !IsSpace(r[|r| - 1])
    ensures exists a, b :: 0 <= a <= b <= |s| && r == s[a..b]
  {
    var t := TrimStart(s);
    var r := TrimEnd(t);
    assert r == s[|s| - |t|..|s| - |t| + |r|];
    r
  }

  lemma {:induction false} TrimmedUnchanged(s: string)
    requires |s| == 0 || (!IsSpace(s[0]) && !IsSpace(s[|s| - 1]))
    ensures Trim(s) == s
  {
  }

  // Decimal numbers.

  predicate IsDigit(ch: char) { '0' <= ch <= '9' }

  predicate AllDigits(s: string) {
    forall k :: 0 <= k < |s| ==> IsDigit(s[k])
  }

  /** Decimal digits with no superfluous leading zero: the text
      JavaScript prints for a non-negative integer. */
  predicate Canonical(s: string) {
    |s| >= 1 && AllDigits(s) && (|s| > 1 ==> s[0] != '0')
  }

  function DigitChar(d: nat): (ch: char)
    requires d < 10
    ensures IsDigit(ch)
  {
    (d + '0' as int) as char
  }

  /** The value of a run of decimal digits (`parseInt(s, 10)` on digits). */
  function DigitsValue(s: string): nat
    requires AllDigits(s)
  {
    if |s| == 0 then 0
    else DigitsValue(s[..|s| - 1]) * 10 + (s[|s| - 1] as int - '0' as int)
  }

  /** The decimal text of a natural number; reading it back gives the number. */
  function NatToDecimal(n: nat): (r: string)
    ensures Canonical(r)
    ensures DigitsValue(r) == n
  {
    if n < 10 then [DigitChar(n)]
    else
      var r := NatToDecimal(n / 10) + [DigitChar(n % 10)];
      assert r[..|r| - 1] == NatToDecimal(n / 10);
      r
  }

  /** `${n}` for an integer `n`. */
  function IntToDecimal(n: int): (r: string)
    ensures n >= 0 ==> Canonical(r) && DigitsValue(r) == n
    ensures n < 0 ==> |r| >= 2 && r[0] == '-' && Canonical(r[1..]) && DigitsValue(r[1..]) == -n
  {
    if n < 0 then "-" + NatToDecimal(-n) else NatToDecimal(n)
  }

  lemma {:induction false} LeadingDigitPositive(s: string)
    requires Canonical(s) && s[0] != '0'
    ensures DigitsValue(s) >= 1
    decreases |s|
  {
    if |s| > 1 {
      var t := s[..|s| - 1];
      assert t[0] == s[0];
      LeadingDigitPositive(t);
    }
  }

  /** Printing the value of canonical digits gives the digits back. */
  lemma {:induction false} DecimalOfValue(s: string)
    requires Canonical(s)
    ensures NatToDecimal(DigitsValue(s)) == s
    decreases |s|
  {
    if |s| > 1 {
      var t := s[..|s| - 1];
      var d := s[|s| - 1] as int - '0' as int;
      assert t[0] == s[0];
      LeadingDigitPositive(t);
      DecimalOfValue(t);
      var v := DigitsValue(t);
      assert DigitsValue(s) == v * 10 + d;
      assert (v * 10 + d) / 10 == v && (v * 10 + d) % 10 == d;
      assert DigitChar(d) == s[|s| - 1];
      assert s == t + [s[|s| - 1]];
    }
  }
}
