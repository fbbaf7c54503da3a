/** `_parse_name_and_title`: candidate name, job title and (in
    multiple_users.py) a two-letter state code, read from an Indeed-style
    "New application" e-mail. The scan looks for the first line ending in
    "applied"; the name is that line without the word, the title the start of
    the following line. HTML is tried first, then plain text, then the
    subject line. */
module Application {
  import opened Text

  /** How a variant cleans the name line and cuts the title line. */
  datatype LineRules = LineRules(nameStrip: set<char>, separators: set<char>)

  /** multiple_users.py:120 and :124 take their sets literally as written:
      the bytes of "•", "–" and "—" read back as Mac Roman text. */
  const MultipleUsersRules := LineRules(
    {' ', '-', '\U{201A}', '\U{00C4}', '\U{00A2}', ','},
    {'\U{201A}', '\U{00C4}', '\U{00A2}', ',', '|', '-', '\U{00EC}', '\U{00EE}'})

  /** full_automation.py:110,113 and gmail_extractor.py:78,81: whitespace-only
      strip of the name, title cut at "•", ",", "|" or "-". */
  const PlainRules := LineRules({}, {'\U{2022}', ',', '|', '-'})

  datatype NameTitle = NameTitle(name: Option<string>, title: Option<string>)

  predicate Truthy(o: Option<string>) { o.Some? && o.value != [] }

  /** The line ends in "applied", in any case (so it has at least seven
      characters). */
  predicate IsAppliedLine(line: string) { |line| >= 7 && EndsWith(Lower(line), "applied") }

  /** The name on an "... applied" line. */
  function NameOf(line: string, rules: LineRules): string
    requires |line| >= 7
  {
    Strip(StripChars(line[..|line| - 7], rules.nameStrip))
  }

  /** The title: the next line up to its first separator, stripped. */
  function TitleOf(line: string, rules: LineRules): string
  {
    Strip(FirstPiece(line, rules.separators))
  }

  /** Index of the first line ending (case-insensitively) in "applied". */
  function FirstAppliedLine(lines: seq<string>): (r: Option<nat>)
    ensures r.None? <==> forall j :: 0 <= j < |lines| ==> !IsAppliedLine(lines[j])
    ensures r.Some? ==> IsFirstApplied(lines, r.value)
  {
    if lines == [] then None
    else
      var earlier := FirstAppliedLine(lines[..|lines| - 1]);
      assert forall j :: 0 <= j < |lines| - 1 ==> lines[..|lines| - 1][j] == lines[j];
      if earlier.Some? then earlier
      else if IsAppliedLine(lines[|lines| - 1]) then Some(|lines| - 1)
      else None
  }

  /** Line `i` is the first one ending in "applied". */
  predicate IsFirstApplied(lines: seq<string>, i: int)
  {
    0 <= i < |lines| && IsAppliedLine(lines[i]) && forall j :: 0 <= j < i ==> !IsAppliedLine(lines[j])
  }

  /** Only one line is the first "applied" one. */
  lemma FirstAppliedLineIsUnique(lines: seq<string>, i: nat)
    requires IsFirstApplied(lines, i)
    ensures forall k :: IsFirstApplied(lines, k) ==> k == i
  {
    forall k | IsFirstApplied(lines, k)
      ensures k == i
    {
      assert !(k < i);
      assert !(i < k);
    }
  }

  /** The name on applied line `i` and the title on the line after it, if
      there is one. */
  function ReadAt(lines: seq<string>, i: nat, rules: LineRules): NameTitle
    requires i < |lines| && IsAppliedLine(lines[i])
  {
    NameTitle(Some(NameOf(lines[i], rules)),
              if i + 1 < |lines| then Some(TitleOf(lines[i + 1], rules)) else None)
  }

  /** `parse_lines`: only the first "applied" line counts; the title comes
      from the line right after it, if there is one. */
  function ParseLines(lines: seq<string>, rules: LineRules): (r: NameTitle)
    ensures r.name.None? <==> forall j :: 0 <= j < |lines| ==> !IsAppliedLine(lines[j])
    ensures r.name.None? ==> r.title.None?
    ensures forall i: nat :: IsFirstApplied(lines, i) ==> r == ReadAt(lines, i, rules)
  {
    match FirstAppliedLine(lines)
    case None => NameTitle(None, None)
    case Some(i) =>
      FirstAppliedLineIsUnique(lines, i);
      ReadAt(lines, i, rules)
  }

  // ---------------------------------------------------------------------
  // State code: ",\s*([A-Za-z]{2})\s*$" searched in the stripped subject.

  /** `t` ends in a comma, optional whitespace and two ASCII letters. */
  predicate EndsWithStateCode(t: string)
  {
    && |t| >= 3
    && IsAsciiLetter(t[|t| - 1]) && IsAsciiLetter(t[|t| - 2])
    && exists k :: 0 <= k < |t| - 2 && t[k] == ','
         && forall j :: k < j < |t| - 2 ==> IsSpace(t[j])
  }

  /** The regex's comma, found from the right: skip the whitespace before the
      two letters and look at the character before it. */
  lemma StateCodeByScan(t: string)
    requires |t| >= 3 && IsAsciiLetter(t[|t| - 1]) && IsAsciiLetter(t[|t| - 2])
    ensures var head := t[..|t| - 2]; var m := TrailingSpaces(head);
            EndsWithStateCode(t) <==> m < |head| && head[|head| - 1 - m] == ','
  {
    var head := t[..|t| - 2];
    var m := TrailingSpaces(head);
    if m < |head| && head[|head| - 1 - m] == ',' {
      var k := |head| - 1 - m;
      assert forall j :: k < j < |t| - 2 ==> IsSpace(head[j]);
    }
    if EndsWithStateCode(t) {
      var k :| 0 <= k < |t| - 2 && t[k] == ','
               && forall j :: k < j < |t| - 2 ==> IsSpace(t[j]);
      assert head[k] == ',';
      assert m == |head| - 1 - k;
    }
  }

  /** The state code at the end of an already stripped subject `t`. */
  function StateCodeOf(t: string): (r: Option<string>)
    ensures r.Some? <==> EndsWithStateCode(t)
    ensures r.Some? ==> |r.value| == 2 && IsAsciiUpper(r.value[0]) && IsAsciiUpper(r.value[1])
    ensures r.Some? ==> r.value == Upper(t[|t| - 2..])
  {
    if |t| < 3 || !IsAsciiLetter(t[|t| - 1]) || !IsAsciiLetter(t[|t| - 2]) then None
    else
      var head := t[..|t| - 2];
      var m := TrailingSpaces(head);
      StateCodeByScan(t);
      if m < |head| && head[|head| - 1 - m] == ',' then Some(Upper(t[|t| - 2..]))
      else None
  }

  function StateCode(subject: string): (r: Option<string>)
    ensures r.Some? <==> EndsWithStateCode(Strip(subject))
    ensures r.Some? ==> |r.value| == 2 && IsAsciiUpper(r.value[0]) && IsAsciiUpper(r.value[1])
    ensures r.Some? ==> var t := Strip(subject); r.value == Upper(t[|t| - 2..])
  {
    StateCodeOf(Strip(subject))
  }

  // ---------------------------------------------------------------------
  // Title from the subject:
  // re.search(r"New application for\s*(.*?)(?:,|$)", subject, re.I)

  const TitlePrefix := "new application for"

  /** The case-insensitive prefix occurs at `i`. */
  predicate PrefixAt(s: string, i: nat)
  {
    i + |TitlePrefix| <= |s| && Lower(s[i..i + |TitlePrefix|]) == TitlePrefix
  }

  /** Where the lazy group starts: after the prefix and the greedy `\s*`. */
  function GroupStart(s: string, i: nat): (j: nat)
    requires PrefixAt(s, i)
    ensures i + |TitlePrefix| <= j <= |s|
  {
    var p := i + |TitlePrefix|;
    p + LeadingSpaces(s[p..])
  }

  /** Where the lazy group ends: the first ',' or '\n' after its start
      (or the end of the subject). */
  function GroupEnd(s: string, i: nat): (k: nat)
    requires PrefixAt(s, i)
    ensures GroupStart(s, i) <= k <= |s|
  {
    var j := GroupStart(s, i);
    j + IndexOfAny(s[j..], {',', '\n'})
  }

  /** The pattern matches with its literal at `i`: the group reaches a comma,
      the end, or a newline that is the last character (where `$` matches). */
  predicate TitleMatchAt(s: string, i: nat)
  {
    PrefixAt(s, i) &&
    var k := GroupEnd(s, i);
    k == |s| || s[k] == ',' || k == |s| - 1
  }

  /** The stripped group of the leftmost match, searching from `from`. */
  function TitleFrom(s: string, from: nat): (r: Option<string>)
    ensures r.None? <==> forall i: nat :: from <= i <= |s| ==> !TitleMatchAt(s, i)
    ensures r.Some? ==>
              exists i: nat :: from <= i <= |s| && TitleMatchAt(s, i)
                && r.value == Strip(s[GroupStart(s, i)..GroupEnd(s, i)])
                && forall i': nat :: from <= i' < i ==> !TitleMatchAt(s, i')
    decreases |s| - from
  {
    if from > |s| then None
    else if TitleMatchAt(s, from) then Some(Strip(s[GroupStart(s, from)..GroupEnd(s, from)]))
    else
      var r := TitleFrom(s, from + 1);
      TitleFromStep(s, from, r);
      r
  }

  /** The leftmost match from `from + 1` is the leftmost from `from` when
      there is none at `from`. */
  lemma TitleFromStep(s: string, from: nat, r: Option<string>)
    requires from <= |s| && !TitleMatchAt(s, from)
    requires r.Some? ==>
               exists i: nat :: from + 1 <= i <= |s| && TitleMatchAt(s, i)
                 && r.value == Strip(s[GroupStart(s, i)..GroupEnd(s, i)])
                 && forall i': nat :: from + 1 <= i' < i ==> !TitleMatchAt(s, i')
    ensures r.Some? ==>
              exists i: nat :: from <= i <= |s| && TitleMatchAt(s, i)
                && r.value == Strip(s[GroupStart(s, i)..GroupEnd(s, i)])
                && forall i': nat :: from <= i' < i ==> !TitleMatchAt(s, i')
  {
    if r.Some? {
      var i: nat :| from + 1 <= i <= |s| && TitleMatchAt(s, i)
                    && r.value == Strip(s[GroupStart(s, i)..GroupEnd(s, i)])
                    && forall i': nat :: from + 1 <= i' < i ==> !TitleMatchAt(s, i');
      NoTitleMatchBefore(s, from, i);
    }
  }

  /** No match at `from` and none in (from, i): none in [from, i). */
  lemma NoTitleMatchBefore(s: string, from: nat, i: nat)
    requires !TitleMatchAt(s, from)
    requires forall i': nat :: from + 1 <= i' < i ==> !TitleMatchAt(s, i')
    ensures forall i': nat :: from <= i' < i ==> !TitleMatchAt(s, i')
  {
  }

  function SubjectTitle(subject: string): (r: Option<string>)
    ensures r.None? <==> forall i: nat :: i <= |subject| ==> !TitleMatchAt(subject, i)
    ensures r.Some? ==>
              exists i: nat :: i <= |subject| && TitleMatchAt(subject, i)
                && r.value == Strip(subject[GroupStart(subject, i)..GroupEnd(subject, i)])
                && forall i': nat :: i' < i ==> !TitleMatchAt(subject, i')
  {
    TitleFrom(subject, 0)
  }

  // ---------------------------------------------------------------------
  // _parse_name_and_title

  /** One source (HTML or text): its lines parsed, if the source is truthy. */
  function FromLines(source: Option<string>, toText: string -> string, rules: LineRules): NameTitle
  {
    if Truthy(source) then ParseLines(NonEmptyLines(toText(source.value)), rules) else NameTitle(None, None)
  }

  predicate Accepted(r: NameTitle) { Truthy(r.name) || Truthy(r.title) }

  /** The (name, title) pair of the three-step fallback. `htmlText` stands for
      BeautifulSoup's `get_text("\n")`; the plain-text body is used as is. */
  function NameAndTitle(html: Option<string>, text: Option<string>, subject: string,
                        htmlText: string -> string, rules: LineRules): (r: NameTitle)
    ensures Accepted(FromLines(html, htmlText, rules)) ==> r == FromLines(html, htmlText, rules)
    ensures (!Accepted(FromLines(html, htmlText, rules)) && Accepted(FromLines(text, s => s, rules)))
              ==> r == FromLines(text, s => s, rules)
    ensures (!Accepted(FromLines(html, htmlText, rules)) && !Accepted(FromLines(text, s => s, rules)))
              ==> r == NameTitle(None, SubjectTitle(subject))
  {
    var fromHtml := FromLines(html, htmlText, rules);
    if Accepted(fromHtml) then fromHtml
    else
      var fromText := FromLines(text, s => s, rules);
      if Accepted(fromText) then fromText
      else NameTitle(None, SubjectTitle(subject))
  }

  /** full_automation.py / gmail_extractor.py: `(name, title)`. */
  function ParseNameAndTitle(html: Option<string>, text: Option<string>, subject: string,
                             htmlText: string -> string): (r: NameTitle)
    ensures r.name.None? ==> r.title == SubjectTitle(subject)
    ensures r.name.Some? ==> Accepted(r)
  {
    NameAndTitle(html, text, subject, htmlText, PlainRules)
  }

  datatype NameTitleState = NameTitleState(name: Option<string>, title: Option<string>, state: Option<string>)

  /** multiple_users.py: the same fallback with its own sets, plus the state
      code, which every branch returns. */
  function ParseNameTitleAndState(html: Option<string>, text: Option<string>, subject: string,
                                  htmlText: string -> string): (r: NameTitleState)
    ensures r.state == StateCode(subject)
    ensures r.name.None? ==> r.title == SubjectTitle(subject)
    ensures r.name.Some? ==> Truthy(r.name) || Truthy(r.title)
  {
    var nt := NameAndTitle(html, text, subject, htmlText, MultipleUsersRules);
    NameTitleState(nt.name, nt.title, if subject != [] then StateCode(subject) else None)
  }
}
