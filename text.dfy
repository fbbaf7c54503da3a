/** String helpers shared by every module: the slice of Python's `str` API
    that the recruiting scripts use, restricted to what their behaviour
    depends on. Case mapping is ASCII-only (see README, "Left out"). */
module Text {

  datatype Option<T> = None | Some(value: T)

  /** Python's `str.isspace()` / `\s` for the characters it accepts. */
  predicate IsSpace(c: char)
  {
    var n := c as int;
    n == 0x20 || (0x09 <= n <= 0x0d) || (0x1c <= n <= 0x1f) || n == 0x85 || n == 0xa0
    || n == 0x1680 || (0x2000 <= n <= 0x200a) || n == 0x2028 || n == 0x2029
    || n == 0x202f || n == 0x205f || n == 0x3000
  }

  /** The characters at which `str.splitlines()` breaks a line. */
  predicate IsLineBreak(c: char)
  {
    var n := c as int;
    (0x0a <= n <= 0x0d) || (0x1c <= n <= 0x1e) || n == 0x85 || n == 0x2028 || n == 0x2029
  }

  /** Every line break is whitespace, so stripping a line removes stray breaks. */
  lemma LineBreakIsSpace(c: char)
    requires IsLineBreak(c)
    ensures IsSpace(c)
  {
  }

  predicate IsAsciiDigit(c: char) { '0' <= c <= '9' }
  predicate IsAsciiUpper(c: char) { 'A' <= c <= 'Z' }
  predicate IsAsciiLower(c: char) { 'a' <= c <= 'z' }
  predicate IsAsciiLetter(c: char) { IsAsciiUpper(c) || IsAsciiLower(c) }

  function LowerChar(c: char): (r: char)
    ensures IsAsciiUpper(c) ==> IsAsciiLower(r)
    ensures !IsAsciiUpper(r)
    ensures IsAsciiLetter(c) <==> IsAsciiLetter(r)
  {
    if IsAsciiUpper(c) then (c as int + 32) as char else c
  }

  function UpperChar(c: char): (r: char)
    ensures IsAsciiLower(c) ==> IsAsciiUpper(r)
    ensures !IsAsciiLower(r)
    ensures IsAsciiLetter(c) <==> IsAsciiLetter(r)
  {
    if IsAsciiLower(c) then (c as int - 32) as char else c
  }

  /** `str.lower()`: position-wise, so lengths agree. */
  function Lower(s: string): (r: string)
    ensures |r| == |s|
    ensures forall i :: 0 <= i < |s| ==> r[i] == LowerChar(s[i])
  {
    seq(|s|, i requires 0 <= i < |s| => LowerChar(s[i]))
  }

  function Upper(s: string): (r: string)
    ensures |r| == |s|
    ensures forall i :: 0 <= i < |s| ==> r[i] == UpperChar(s[i])
  {
    if s == [] then [] else [UpperChar(s[0])] + Upper(s[1..])
  }

  predicate StartsWith(s: string, p: string) { |p| <= |s| && s[..|p|] == p }

  predicate EndsWith(s: string, p: string) { |p| <= |s| && s[|s| - |p|..] == p }

  /** `p` occurs in `s` starting at index `i`. */
  predicate OccursAt(s: string, p: string, i: nat)
  {
    i + |p| <= |s| && s[i..i + |p|] == p
  }

  /** `p in s` for strings. */
  predicate Contains(s: string, p: string)
  {
    exists i: nat :: i <= |s| && OccursAt(s, p, i)
  }

  lemma OccursAtShift(s: string, p: string, i: nat)
    requires 1 <= i && s != []
    ensures OccursAt(s, p, i) <==> OccursAt(s[1..], p, i - 1)
  {
    if i + |p| <= |s| {
      var t := s[1..];
      var a, b := s[i..i + |p|], t[i - 1..i - 1 + |p|];
      forall j | 0 <= j < |p|
        ensures a[j] == b[j]
      {
        assert a[j] == s[i + j] && b[j] == t[i - 1 + j];
      }
      assert a == b;
    }
  }

  /** Index of the first occurrence of `p` in `s`, as `str.find` gives it. */
  function Find(s: string, p: string): (r: Option<nat>)
    ensures r.Some? ==> OccursAt(s, p, r.value)
    ensures r.Some? ==> forall i: nat :: i < r.value ==> !OccursAt(s, p, i)
    ensures r.None? ==> !Contains(s, p)
    decreases |s|
  {
    if |s| < |p| then None
    else if s[..|p|] == p then Some(0)
    else
      var rest := Find(s[1..], p);
      assert !OccursAt(s, p, 0);
      assert forall i: nat :: 1 <= i ==> (OccursAt(s, p, i) <==> OccursAt(s[1..], p, i - 1)) by {
        forall i: nat | 1 <= i { OccursAtShift(s, p, i); }
      }
      match rest
      case None => None
      case Some(k) => Some(k + 1)
  }

  /** The first index at which a character of `cs` occurs, or `|s|`. */
  function IndexOfAny(s: string, cs: set<char>): (r: nat)
    ensures r <= |s|
    ensures forall i :: 0 <= i < r ==> s[i] !in cs
    ensures r < |s| ==> s[r] in cs
  {
    if s == [] then 0 else if s[0] in cs then 0 else 1 + IndexOfAny(s[1..], cs)
  }

  /** `re.split("[cs]", s)[0]`: the text before the first separator. */
  function FirstPiece(s: string, cs: set<char>): (r: string)
    ensures StartsWith(s, r)
    ensures forall i :: 0 <= i < |r| ==> r[i] !in cs
    ensures |r| < |s| ==> s[|r|] in cs
  {
    s[..IndexOfAny(s, cs)]
  }

  /** Number of leading characters of `s` that belong to `cs`. */
  function LeadingCount(s: string, cs: set<char>): (n: nat)
    ensures n <= |s|
    ensures forall i :: 0 <= i < n ==> s[i] in cs
    ensures n < |s| ==> s[n] !in cs
  {
    if s == [] || s[0] !in cs then 0 else 1 + LeadingCount(s[1..], cs)
  }

  /** Number of trailing characters of `s` that belong to `cs`. */
  function TrailingCount(s: string, cs: set<char>): (n: nat)
    ensures n <= |s|
    ensures forall i :: |s| - n <= i < |s| ==> s[i] in cs
    ensures n < |s| ==> s[|s| - n - 1] !in cs
  {
    if s == [] || s[|s| - 1] !in cs then 0 else 1 + TrailingCount(s[..|s| - 1], cs)
  }

  /** `str.strip(chars)`: drops leading and trailing characters in `cs`. */
  function StripChars(s: string, cs: set<char>): (r: string)
    ensures |r| <= |s|
    ensures r != [] ==> r[0] !in cs && r[|r| - 1] !in cs
    ensures Contains(s, r)
    ensures (forall i :: 0 <= i < |s| ==> s[i] !in cs) ==> r == s
  {
    var l := LeadingCount(s, cs);
    var rest := s[l..];
    var t := TrailingCount(rest, cs);
    assert s[l..l + |rest| - t] == rest[..|rest| - t];
    assert OccursAt(s, rest[..|rest| - t], l);
    rest[..|rest| - t]
  }

  /** `str.strip()` with no argument: whitespace on both ends. */
  function Strip(s: string): (r: string)
    ensures |r| <= |s|
    ensures r != [] ==> !IsSpace(r[0]) && !IsSpace(r[|r| - 1])
    ensures Contains(s, r)
  {
    var l := LeadingSpaces(s);
    var rest := s[l..];
    var t := TrailingSpaces(rest);
    assert s[l..l + |rest| - t] == rest[..|rest| - t];
    assert OccursAt(s, rest[..|rest| - t], l);
    rest[..|rest| - t]
  }

  function LeadingSpaces(s: string): (n: nat)
    ensures n <= |s|
    ensures forall i :: 0 <= i < n ==> IsSpace(s[i])
    ensures n < |s| ==> !IsSpace(s[n])
  {
    if s == [] || !IsSpace(s[0]) then 0 else 1 + LeadingSpaces(s[1..])
  }

  function TrailingSpaces(s: string): (n: nat)
    ensures n <= |s|
    ensures forall i :: |s| - n <= i < |s| ==> IsSpace(s[i])
    ensures n < |s| ==> !IsSpace(s[|s| - n - 1])
  {
    if s == [] || !IsSpace(s[|s| - 1]) then 0 else 1 + TrailingSpaces(s[..|s| - 1])
  }

  /** `s.replace(p, "")`: removes the non-overlapping occurrences of `p`
      found scanning left to right, in a single pass. */
  function RemoveAll(s: string, p: string): (r: string)
    requires p != []
    ensures |r| <= |s|
    decreases |s|
  {
    if |s| < |p| then s
    else if s[..|p|] == p then RemoveAll(s[|p|..], p)
    else [s[0]] + RemoveAll(s[1..], p)
  }

  /** `s.split(sep)` for a one-character separator: every piece, empty ones included. */
  function SplitOn(s: string, sep: char): (r: seq<string>)
    ensures |r| >= 1
    ensures forall k :: 0 <= k < |r| ==> sep !in r[k]
    decreases |s|
  {
    var i := IndexOfAny(s, {sep});
    if i == |s| then [s] else [s[..i]] + SplitOn(s[i + 1..], sep)
  }

  /** The stripped, non-empty lines of `s`:
      `[l.strip() for l in s.splitlines() if l.strip()]`. Splitting at each
      break character separately (so "\r\n" yields an empty piece) gives the
      same list, since empty pieces are dropped. */
  function NonEmptyLines(s: string): (r: seq<string>)
    ensures AllStripped(r)
    decreases |s|
  {
    var i := IndexOfLineBreak(s);
    var here := StrippedIfAny(s[..i]);
    if i == |s| then here
    else
      var rest := NonEmptyLines(s[i + 1..]);
      AllStrippedConcat(here, rest);
      here + rest
  }

  /** A non-empty line without surrounding whitespace. */
  predicate IsStrippedLine(line: string)
  {
    line != [] && !IsSpace(line[0]) && !IsSpace(line[|line| - 1])
  }

  predicate AllStripped(lines: seq<string>)
  {
    forall k :: 0 <= k < |lines| ==> IsStrippedLine(lines[k])
  }

  /** `[l.strip()] if l.strip() else []`. */
  function StrippedIfAny(piece: string): (r: seq<string>)
    ensures AllStripped(r)
  {
    var line := Strip(piece);
    if line == [] then [] else [line]
  }

  lemma AllStrippedConcat(a: seq<string>, b: seq<string>)
    requires AllStripped(a) && AllStripped(b)
    ensures AllStripped(a + b)
  {
    assert forall k :: 0 <= k < |b| ==> (a + b)[|a| + k] == b[k];
  }

  function IndexOfLineBreak(s: string): (r: nat)
    ensures r <= |s|
    ensures forall i :: 0 <= i < r ==> !IsLineBreak(s[i])
    ensures r < |s| ==> IsLineBreak(s[r])
  {
    if s == [] then 0 else if IsLineBreak(s[0]) then 0 else 1 + IndexOfLineBreak(s[1..])
  }

  function DigitChar(d: nat): (c: char)
    requires d < 10
    ensures IsAsciiDigit(c)
  {
    ('0' as int + d) as char
  }

  function DigitValue(c: char): (d: nat)
    requires IsAsciiDigit(c)
    ensures d < 10 && DigitChar(d) == c
  {
    c as int - '0' as int
  }

  /** `str(n)` for a natural number: decimal, no leading zeros. */
  function NatToString(n: nat): (r: string)
    ensures r != []
    ensures forall i :: 0 <= i < |r| ==> IsAsciiDigit(r[i])
    ensures |r| > 1 ==> r[0] != '0'
  {
    if n < 10 then [DigitChar(n)] else NatToString(n / 10) + [DigitChar(n % 10)]
  }

  /** `str(x)` for any integer. */
  function IntToString(x: int): (r: string)
    ensures r != []
  {
    if x < 0 then "-" + NatToString(-x) else NatToString(x)
  }

  /** Value of a string of decimal digits. */
  function DecimalValue(s: string): nat
    requires forall i :: 0 <= i < |s| ==> IsAsciiDigit(s[i])
  {
    if s == [] then 0 else 10 * DecimalValue(s[..|s| - 1]) + DigitValue(s[|s| - 1])
  }

  lemma {:induction false} DecimalOfNatToString(n: nat)
    ensures DecimalValue(NatToString(n)) == n
  {
    if n >= 10 {
      DecimalOfNatToString(n / 10);
      var s := NatToString(n);
      assert s[..|s| - 1] == NatToString(n / 10);
    }
  }

  /** Distinct numbers print differently. */
  lemma NatToStringInjective(m: nat, n: nat)
    requires NatToString(m) == NatToString(n)
    ensures m == n
  {
    DecimalOfNatToString(m);
    DecimalOfNatToString(n);
  }

  /** Replicates `c` `n` times, as `c * n` does in Python. */
  function Repeat(c: char, n: nat): (r: string)
    ensures |r| == n
    ensures forall i :: 0 <= i < n ==> r[i] == c
  {
    if n == 0 then [] else [c] + Repeat(c, n - 1)
  }

  /** Drops every `_` from `s`. */
  function WithoutUnderscores(s: string): (r: string)
    ensures |r| <= |s|
    ensures '_' !in r
    ensures (forall i :: 0 <= i < |s| ==> IsAsciiDigit(s[i]) || s[i] == '_') ==>
              forall i :: 0 <= i < |r| ==> IsAsciiDigit(r[i])
  {
    if s == [] then [] else (if s[0] == '_' then [] else [s[0]]) + WithoutUnderscores(s[1..])
  }

  /** The digit part of an integer literal: digits, where single underscores
      may separate two digits. */
  predicate IsDigitGroups(s: string)
  {
    && s != []
    && IsAsciiDigit(s[0]) && IsAsciiDigit(s[|s| - 1])
    && (forall i :: 0 <= i < |s| ==> IsAsciiDigit(s[i]) || s[i] == '_')
    && (forall i :: 0 <= i < |s| - 1 ==> !(s[i] == '_' && s[i + 1] == '_'))
  }

  /** `int(s)` on a string that carries no surrounding whitespace: an optional
      sign, then decimal digits (underscores allowed between digits). Any other
      string raises `ValueError`, modelled as `None`. */
  function ParseInt(s: string): (r: Option<int>)
    ensures r.Some? ==> s != [] && (IsAsciiDigit(s[0]) || s[0] == '+' || s[0] == '-')
    ensures (forall i :: 0 <= i < |s| ==> IsAsciiDigit(s[i])) && s != [] ==> r.Some? && r.value >= 0
  {
    if s == [] then None
    else
      var negative := s[0] == '-';
      var body := if s[0] == '-' || s[0] == '+' then s[1..] else s;
      if !IsDigitGroups(body) then None
      else
        var v: int := DecimalValue(WithoutUnderscores(body));
        Some(if negative then -v else v)
  }

  lemma {:induction false} WithoutUnderscoresOfDigits(s: string)
    requires forall i :: 0 <= i < |s| ==> IsAsciiDigit(s[i])
    ensures WithoutUnderscores(s) == s
  {
    if s != [] {
      WithoutUnderscoresOfDigits(s[1..]);
    }
  }

  /** `int(str(x)) == x`: printing an integer and parsing it back is the identity. */
  lemma ParseIntOfIntToString(x: int)
    ensures ParseInt(IntToString(x)) == Some(x)
  {
    var n: nat := if x < 0 then -x else x;
    var digits := NatToString(n);
    WithoutUnderscoresOfDigits(digits);
    DecimalOfNatToString(n);
    assert IsDigitGroups(digits);
    var s := IntToString(x);
    if x < 0 {
      assert s == "-" + digits;
      assert s[0] == '-' && s[1..] == digits;
    } else {
      assert s == digits;
      assert s[0] != '-' && s[0] != '+';
    }
  }
}
