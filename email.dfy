/** `extract_email` (multiple_users.py, full_automation.py): the first match
    of `[a-zA-Z0-9._%+-]+@[a-zA-Z0-9.-]+\.[a-zA-Z]{2,}` in the résumé text,
    as Python's backtracking matcher finds it. */
module Email {
  import opened Text

  predicate IsAsciiAlnum(c: char) { IsAsciiLetter(c) || IsAsciiDigit(c) }

  /** `[a-zA-Z0-9._%+-]` */
  predicate IsLocalChar(c: char) { IsAsciiAlnum(c) || c == '.' || c == '_' || c == '%' || c == '+' || c == '-' }

  /** `[a-zA-Z0-9.-]` */
  predicate IsDomainChar(c: char) { IsAsciiAlnum(c) || c == '.' || c == '-' }

  datatype CharClass = LocalPart | DomainPart | TopLevel

  predicate InClass(c: char, k: CharClass)
  {
    match k
    case LocalPart => IsLocalChar(c)
    case DomainPart => IsDomainChar(c)
    case TopLevel => IsAsciiLetter(c)
  }

  // ---------------------------------------------------------------------
  // The language of the pattern, stated without any matching strategy

  /** `t` is local part, '@', domain, '.', top-level part, with '@' at `at`
      and the final '.' at `dot`. */
  predicate EmailShape(t: string, at: nat, dot: nat)
  {
    && 0 < at && at + 1 < dot && dot + 3 <= |t|
    && t[at] == '@' && t[dot] == '.'
    && (forall m :: 0 <= m < at ==> IsLocalChar(t[m]))
    && (forall m :: at < m < dot ==> IsDomainChar(t[m]))
    && (forall m :: dot < m < |t| ==> IsAsciiLetter(t[m]))
  }

  /** The whole of `t` matches the pattern. */
  ghost predicate IsEmail(t: string)
  {
    exists at: nat, dot: nat :: EmailShape(t, at, dot)
  }

  // ---------------------------------------------------------------------
  // The matcher

  /** How far a greedy run of class `k` reaches from `i`. */
  function RunEnd(s: string, i: nat, k: CharClass): (j: nat)
    requires i <= |s|
    ensures i <= j <= |s|
    ensures forall m :: i <= m < j ==> InClass(s[m], k)
    ensures j < |s| ==> !InClass(s[j], k)
    decreases |s| - i
  {
    if i == |s| || !InClass(s[i], k) then i else RunEnd(s, i + 1, k)
  }

  /** A run that covers `[i, j)` and stops at a character outside the class
      ends exactly there. */
  lemma RunEndAt(s: string, i: nat, j: nat, k: CharClass)
    requires i <= j <= |s|
    requires forall m :: i <= m < j ==> InClass(s[m], k)
    requires j < |s| ==> !InClass(s[j], k)
    ensures RunEnd(s, i, k) == j
  {
  }

  /** A run that covers `[i, j)` reaches at least `j`. */
  lemma RunEndCovers(s: string, i: nat, j: nat, k: CharClass)
    requires i <= j <= |s|
    requires forall m :: i <= m < j ==> InClass(s[m], k)
    ensures RunEnd(s, i, k) >= j
  {
  }

  /** `\.[a-zA-Z]{2,}` can start at `k`. */
  predicate DotAt(s: string, k: nat)
  {
    k + 2 < |s| && s[k] == '.' && IsAsciiLetter(s[k + 1]) && IsAsciiLetter(s[k + 2])
  }

  /** The greatest `m` in `[lo, hi]` where `DotAt` holds: the greedy domain
      run gives characters back one at a time until the dot fits. */
  function LastDot(s: string, lo: nat, hi: int): (r: Option<nat>)
    ensures r.None? <==> forall m :: lo <= m <= hi ==> !DotAt(s, m)
    ensures r.Some? ==> lo <= r.value <= hi && DotAt(s, r.value)
                        && forall m :: r.value < m <= hi ==> !DotAt(s, m)
    decreases if hi < lo then 0 else hi - lo + 1
  {
    if hi < lo then None
    else if DotAt(s, hi) then Some(hi)
    else LastDot(s, lo, hi - 1)
  }

  /** Where the match ends once the local part has run up to the '@' at
      `e`: the domain run, given back until a dot fits, then the top-level
      run. */
  function MatchAfterAt(s: string, e: nat): Option<nat>
    requires e < |s|
  {
    var q := e + 1;
    var f := RunEnd(s, q, DomainPart);
    match LastDot(s, q + 1, f - 1)
    case None => None
    case Some(k) => Some(RunEnd(s, k + 1, TopLevel))
  }

  /** Where the match starting at `i` ends, if the pattern matches there. */
  function MatchEnd(s: string, i: nat): Option<nat>
  {
    if i >= |s| || !IsLocalChar(s[i]) then None
    else
      var e := RunEnd(s, i, LocalPart);
      if e == |s| || s[e] != '@' then None
      else MatchAfterAt(s, e)
  }

  /** The leftmost match at or after `from`. */
  function FirstMatch(s: string, from: nat): (r: Option<string>)
    ensures r.None? <==> forall i :: from <= i < |s| ==> MatchEnd(s, i).None?
    ensures r.Some? ==> exists i :: from <= i < |s| && MatchEnd(s, i).Some?
                          && i <= MatchEnd(s, i).value <= |s|
                          && r.value == s[i..MatchEnd(s, i).value]
                          && forall j :: from <= j < i ==> MatchEnd(s, j).None?
    decreases |s| - from
  {
    if from >= |s| then None
    else match MatchEnd(s, from)
      case Some(e) =>
        MatchEndIsEmail(s, from);
        Some(s[from..e])
      case None => FirstMatch(s, from + 1)
  }

  /** `extract_email(text)`: `emails[0]` of `re.findall`, or `None`. */
  function ExtractEmail(s: string): Option<string>
  {
    FirstMatch(s, 0)
  }

  // ---------------------------------------------------------------------
  // The matcher against the language

  /** Runs of the three classes around an '@' and a '.' make an address. */
  lemma ShapeFromRuns(s: string, i: nat, e: nat, k: nat, end: nat)
    requires i < e && e + 1 < k && k + 3 <= end <= |s|
    requires s[e] == '@' && s[k] == '.'
    requires forall m :: i <= m < e ==> InClass(s[m], LocalPart)
    requires forall m :: e < m < k ==> InClass(s[m], DomainPart)
    requires forall m :: k < m < end ==> InClass(s[m], TopLevel)
    ensures EmailShape(s[i..end], e - i, k - i)
  {
    var t := s[i..end];
    assert forall m :: 0 <= m < |t| ==> t[m] == s[i + m];
  }

  /** What the matcher finds is an address. */
  lemma MatchEndIsEmail(s: string, i: nat)
    requires MatchEnd(s, i).Some?
    ensures i < MatchEnd(s, i).value <= |s|
    ensures IsEmail(s[i..MatchEnd(s, i).value])
  {
    var e := RunEnd(s, i, LocalPart);
    assert i < |s| && IsLocalChar(s[i]) && e < |s| && s[e] == '@';
    MatchEndAfterLocal(s, i, e);
    var f := RunEnd(s, e + 1, DomainPart);
    var r := LastDot(s, e + 1 + 1, f - 1);
    assert r.Some?;
    var k := r.value;
    MatchAfterAtDot(s, e, f, k);
    var end := RunEnd(s, k + 1, TopLevel);
    assert DotAt(s, k);
    assert InClass(s[k + 1], TopLevel) && InClass(s[k + 2], TopLevel);
    RunEndCovers(s, k + 1, k + 3, TopLevel);
    ShapeFromRuns(s, i, e, k, end);
  }

  /** An address at `[i, j)` read back as runs of `s`. */
  lemma RunsFromShape(s: string, i: nat, j: nat, at: nat, dot: nat)
    requires i <= j <= |s| && EmailShape(s[i..j], at, dot)
    ensures i + dot + 3 <= j
    ensures s[i + at] == '@' && DotAt(s, i + dot)
    ensures forall m :: i <= m < i + at ==> InClass(s[m], LocalPart)
    ensures forall m :: i + at < m < j ==> InClass(s[m], DomainPart)
    ensures forall m :: i + dot < m < j ==> InClass(s[m], TopLevel)
  {
    var t := s[i..j];
    assert forall m :: i <= m < j ==> s[m] == t[m - i];
  }

  /** The matcher's first step: a local run from `i` that stops at an '@'. */
  lemma MatchEndAfterLocal(s: string, i: nat, e: nat)
    requires i < |s| && IsLocalChar(s[i])
    requires e == RunEnd(s, i, LocalPart) && e < |s| && s[e] == '@'
    ensures MatchEnd(s, i) == MatchAfterAt(s, e)
  {
  }

  /** The matcher's second step: the dot the domain run gives back to. */
  lemma MatchAfterAtDot(s: string, e: nat, f: nat, k: nat)
    requires e < |s| && f == RunEnd(s, e + 1, DomainPart)
    requires LastDot(s, e + 1 + 1, f - 1) == Some(k)
    ensures MatchAfterAt(s, e) == Some(RunEnd(s, k + 1, TopLevel))
  {
  }

  /** Any address starting at `i` is covered by the matcher's match there. */
  lemma EmailAtIsMatched(s: string, i: nat, j: nat, at: nat, dot: nat)
    requires i <= j <= |s| && EmailShape(s[i..j], at, dot)
    ensures MatchEnd(s, i).Some? && MatchEnd(s, i).value >= j
  {
    var e, d := i + at, i + dot;
    assert i < e && e + 1 < d && d + 3 <= j && s[e] == '@' && DotAt(s, d) && IsLocalChar(s[i])
        && RunEnd(s, i, LocalPart) == e
        && RunEnd(s, e + 1, DomainPart) >= j
        && (forall m :: d < m < j ==> InClass(s[m], TopLevel)) by {
      RunsFromShape(s, i, j, at, dot);
      RunEndAt(s, i, e, LocalPart);
      RunEndCovers(s, e + 1, j, DomainPart);
    }
    MatchFromRuns(s, i, j, e, d);
  }

  /** The matcher's steps over the runs of an address at `[i, j)` with its
      '@' at `e` and its last dot at `d`. */
  lemma MatchFromRuns(s: string, i: nat, j: nat, e: nat, d: nat)
    requires i < e && e + 1 < d && d + 3 <= j <= |s|
    requires s[e] == '@' && DotAt(s, d) && IsLocalChar(s[i])
    requires RunEnd(s, i, LocalPart) == e && RunEnd(s, e + 1, DomainPart) >= j
    requires forall m :: d < m < j ==> InClass(s[m], TopLevel)
    ensures MatchEnd(s, i).Some? && MatchEnd(s, i).value >= j
  {
    MatchEndAfterLocal(s, i, e);
    var f := RunEnd(s, e + 1, DomainPart);
    var r := LastDot(s, e + 1 + 1, f - 1);
    assert r.Some? by {
      assert e + 1 + 1 <= d <= f - 1;
    }
    var k := r.value;
    MatchAfterAtDot(s, e, f, k);
    if k == d {
      RunEndCovers(s, k + 1, j, TopLevel);
    } else {
      assert k > d && !InClass(s[k], TopLevel);
    }
  }

  /** A match starts at `i` exactly when some address starts there; the match
      is the longest such address. */
  lemma MatchEndIffEmail(s: string, i: nat)
    ensures MatchEnd(s, i).Some? <==> exists j :: i <= j <= |s| && IsEmail(s[i..j])
    ensures MatchEnd(s, i).Some? ==>
              forall j :: MatchEnd(s, i).value < j <= |s| ==> !IsEmail(s[i..j])
  {
    if MatchEnd(s, i).Some? {
      MatchEndIsEmail(s, i);
      forall j | MatchEnd(s, i).value < j <= |s|
        ensures !IsEmail(s[i..j])
      {
        if IsEmail(s[i..j]) {
          var at: nat, dot: nat :| EmailShape(s[i..j], at, dot);
          EmailAtIsMatched(s, i, j, at, dot);
        }
      }
    }
    if exists j :: i <= j <= |s| && IsEmail(s[i..j]) {
      var j :| i <= j <= |s| && IsEmail(s[i..j]);
      var at: nat, dot: nat :| EmailShape(s[i..j], at, dot);
      EmailAtIsMatched(s, i, j, at, dot);
    }
  }

  /** The text holds no address anywhere. */
  ghost predicate NoEmailIn(s: string)
  {
    forall i, j :: 0 <= i <= j <= |s| ==> !IsEmail(s[i..j])
  }

  /** `s[i..e]` is an address, no address starts before `i`, and none that
      starts at `i` is longer. */
  ghost predicate LeftmostLongest(s: string, i: nat, e: nat)
  {
    && i <= e <= |s| && IsEmail(s[i..e])
    && (forall j :: e < j <= |s| ==> !IsEmail(s[i..j]))
    && (forall i', j :: 0 <= i' < i && i' <= j <= |s| ==> !IsEmail(s[i'..j]))
  }

  /** `extract_email` returns `None` exactly when the text contains no
      address. */
  lemma ExtractEmailNoneIffNoAddress(s: string)
    ensures ExtractEmail(s).None? <==> NoEmailIn(s)
  {
    if ExtractEmail(s).None? {
      forall i, j | 0 <= i <= j <= |s|
        ensures !IsEmail(s[i..j])
      {
        MatchEndIffEmail(s, i);
      }
    } else {
      var i :| 0 <= i < |s| && MatchEnd(s, i).Some? && i <= MatchEnd(s, i).value <= |s|
                && ExtractEmail(s).value == s[i..MatchEnd(s, i).value]
                && forall j :: 0 <= j < i ==> MatchEnd(s, j).None?;
      MatchEndIsEmail(s, i);
    }
  }

  /** Otherwise it returns the leftmost-longest address in the text. */
  lemma ExtractEmailIsLeftmostLongest(s: string)
    requires ExtractEmail(s).Some?
    ensures exists i: nat, e: nat :: LeftmostLongest(s, i, e) && ExtractEmail(s).value == s[i..e]
  {
    var i :| 0 <= i < |s| && MatchEnd(s, i).Some? && i <= MatchEnd(s, i).value <= |s|
              && ExtractEmail(s).value == s[i..MatchEnd(s, i).value]
              && forall j :: 0 <= j < i ==> MatchEnd(s, j).None?;
    var e := MatchEnd(s, i).value;
    MatchEndIsEmail(s, i);
    MatchEndIffEmail(s, i);
    assert forall j :: e < j <= |s| ==> !IsEmail(s[i..j]);
    forall i', j | 0 <= i' < i && i' <= j <= |s|
      ensures !IsEmail(s[i'..j])
    {
      MatchEndIffEmail(s, i');
    }
    assert LeftmostLongest(s, i, e);
  }

  /** A text that is exactly one address comes back whole. */
  lemma ExtractEmailOfAddress(t: string)
    requires IsEmail(t)
    ensures ExtractEmail(t) == Some(t)
  {
    var at: nat, dot: nat :| EmailShape(t, at, dot);
    assert t[0..|t|] == t;
    EmailAtIsMatched(t, 0, |t|, at, dot);
    MatchEndIsEmail(t, 0);
    assert MatchEnd(t, 0) == Some(|t|);
    assert FirstMatch(t, 0) == Some(t[0..|t|]);
  }
}
