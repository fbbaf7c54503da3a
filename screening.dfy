/** What the three screening chatbots (lang_graph_sms.py, lang_graph_wa.py,
    lang_graph_whatsapp.py) share: the question lists of `job_questions`, the
    `JobScreeningAgent` question cursor, the "human touch" variations, the
    job-title match and the score extractors. Random choices are parameters. */
module Screening {
  import opened Text

  datatype Question = Question(text: string, followUp: Option<string>)

  /** A Python list of questions. The lists inside `job_questions` are shared
      by reference with every agent built for that title. */
  class QuestionList {
    var items: seq<Question>

    constructor (items0: seq<Question>)
      ensures items == items0
    {
      items := items0;
    }
  }

  const FixedQuestions := [
    Question("Do you have any related qualifications?", None),
    Question("When can you start?", None),
    Question("Why are you interested in this role?", None)]

  /** What the webhooks look for in a reply to tell that the questions are over. */
  const ThankYou := "Thank you"

  const CompletionMessage := ThankYou + " for answering all the questions!"

  /** The casual prefixes of `get_question`; choice 0 stands for the 70% case
      without one. */
  const Prefixes := ["Let me ask you - ", "I'd like to know - ", "Here's my next question: ", "Alright, "]

  /** `get_question` over a list and an index, with prefix choice `prefix`. */
  function QuestionText(qs: seq<Question>, index: nat, prefix: nat): string
    requires prefix <= |Prefixes|
  {
    if index < |qs| then
      if prefix == 0 then qs[index].text else Prefixes[prefix - 1] + Lower(qs[index].text)
    else CompletionMessage
  }

  /** The question as asked: as written without a prefix, lower-cased after
      one, and the completion message once the index is past the list. */
  lemma QuestionTextShape(qs: seq<Question>, index: nat, prefix: nat)
    requires prefix <= |Prefixes|
    ensures index < |qs| && prefix == 0 ==> QuestionText(qs, index, prefix) == qs[index].text
    ensures index < |qs| && prefix > 0 ==>
              StartsWith(QuestionText(qs, index, prefix), Prefixes[prefix - 1])
              && Contains(QuestionText(qs, index, prefix), Lower(qs[index].text))
    ensures index >= |qs| ==> QuestionText(qs, index, prefix) == CompletionMessage
  {
    if index < |qs| && prefix > 0 {
      var r := QuestionText(qs, index, prefix);
      assert OccursAt(r, Lower(qs[index].text), |Prefixes[prefix - 1]|);
    }
  }

  /** The random choices of one webhook request: the variation picked, the
      question prefix (0 for none) and the acknowledgement sent first, if
      any, out of `AckCount`. */
  datatype Choices = Choices(pick: nat, prefix: nat, ack: Option<nat>)

  const AckCount := 5

  predicate ValidChoices(ch: Choices)
  {
    ch.pick < 3 && ch.prefix <= |Prefixes| && (ch.ack.Some? ==> ch.ack.value < AckCount)
  }

  const JobRequest := "Before we get started, could you please specify the position you applied for?"

  function Confirmation(job: string): string
  {
    "Perfect! I see you're interested in the " + job + " position. Let me ask you a few questions to get to know you better."
  }

  // ---------------------------------------------------------------------
  // The question cursor

  /** `move_to_next_question` on index `c` of `n` questions: the new index
      and whether it signalled the end. */
  function Advance(c: nat, n: nat): (nat, bool)
  {
    if c < n - 1 then (c + 1, false) else (c, true)
  }

  /** The index after `k` calls of `run` on an agent that starts at 0 and
      keeps its `n` questions, and whether the `k`-th call signalled the end. */
  function AfterAnswers(n: nat, k: nat): (nat, bool)
  {
    if k == 0 then (0, false) else Advance(AfterAnswers(n, k - 1).0, n)
  }

  function Min(a: nat, b: nat): nat { if a <= b then a else b }

  /** With `n` questions the index never passes the last one, and the end is
      signalled from the `n`-th answer on and never before. */
  lemma {:induction false} AnswersToComplete(n: nat, k: nat)
    requires n >= 1
    ensures AfterAnswers(n, k).0 == Min(k, n - 1)
    ensures k >= 1 ==> (AfterAnswers(n, k).1 <==> k >= n)
  {
    if k > 0 {
      AnswersToComplete(n, k - 1);
    }
  }

  /** The list an agent built for `title` ends up with: the catalogue's list
      (or a new empty one) extended with the fixed questions. */
  function BuiltItems(catalogue: map<string, QuestionList>, title: string): seq<Question>
    reads catalogue.Values
  {
    (if title in catalogue then catalogue[title].items else []) + FixedQuestions
  }

  /** The catalogue list an agent built for `title`, if any, would extend:
      the only list a screening step may change. */
  function ListOf(catalogue: map<string, QuestionList>, title: Option<string>): set<QuestionList>
  {
    if title.Some? && title.value in catalogue then {catalogue[title.value]} else {}
  }

  /** `JobScreeningAgent`. Its `questions` is the very list stored in the
      catalogue under its title, extended in place by the constructor. */
  class JobScreeningAgent {
    var jobTitle: string
    var questions: QuestionList
    var currentQuestion: nat
    var responses: seq<string>

    /** `JobScreeningAgent(title, ...)`: `job_questions.get(title, [])`
        extended with the fixed questions, without a copy. */
    constructor (title: string, catalogue: map<string, QuestionList>, existing: seq<string>)
      modifies if title in catalogue then {catalogue[title]} else {}
      ensures jobTitle == title && currentQuestion == 0 && responses == existing
      ensures title in catalogue ==>
                questions == catalogue[title] && questions.items == old(catalogue[title].items) + FixedQuestions
      ensures title !in catalogue ==> fresh(questions) && questions.items == FixedQuestions
    {
      var q: QuestionList;
      if title in catalogue {
        q := catalogue[title];
        q.items := q.items + FixedQuestions;
      } else {
        q := new QuestionList(FixedQuestions);
      }
      jobTitle := title;
      questions := q;
      currentQuestion := 0;
      responses := existing;
    }

    /** `get_question`: the current question, possibly with a prefix, or the
        completion message once the index is past the list. */
    method GetQuestion(prefix: nat) returns (r: string)
      requires prefix <= |Prefixes|
      ensures r == QuestionText(questions.items, currentQuestion, prefix)
    {
      r := QuestionText(questions.items, currentQuestion, prefix);
    }

    /** `move_to_next_question`. */
    method MoveToNextQuestion() returns (done: bool)
      modifies this
      ensures (currentQuestion, done) == Advance(old(currentQuestion), |questions.items|)
      ensures done <==> old(currentQuestion) + 1 >= |questions.items|
      ensures old(currentQuestion) < |questions.items| ==> currentQuestion < |questions.items|
      ensures jobTitle == old(jobTitle) && questions == old(questions) && responses == old(responses)
    {
      if currentQuestion < |questions.items| - 1 {
        currentQuestion := currentQuestion + 1;
        done := false;
      } else {
        done := true;
      }
    }

    /** The first statement of every `run`: the answer is recorded. */
    method Record(answer: string)
      modifies this
      ensures responses == old(responses) + [answer]
      ensures jobTitle == old(jobTitle) && questions == old(questions) && currentQuestion == old(currentQuestion)
    {
      responses := responses + [answer];
    }
  }

  // ---------------------------------------------------------------------
  // Human touch

  /** One entry of the `variations` dict: a key and its replacements. */
  datatype Variation = Variation(key: string, options: seq<string>)

  /** `add_human_touch_to_message(message)` with `random.choice` fixed to
      `pick`: an option of the first key, in dict order, contained in the
      message; the message itself when no key occurs in it. */
  function HumanTouch(table: seq<Variation>, message: string, pick: nat): (r: string)
    requires forall i :: 0 <= i < |table| ==> pick < |table[i].options|
    ensures (forall i :: 0 <= i < |table| ==> !Contains(message, table[i].key)) ==> r == message
    ensures forall i ::
              (0 <= i < |table| && Contains(message, table[i].key)
               && forall j :: 0 <= j < i ==> !Contains(message, table[j].key)) ==> r in table[i].options
  {
    if table == [] then message
    else if Contains(message, table[0].key) then table[0].options[pick]
    else
      var r := HumanTouch(table[1..], message, pick);
      assert forall k :: 1 <= k < |table| ==> table[k] == table[1..][k - 1];
      r
  }

  const Greeting := "Thanks for responding!"

  /** A message contains itself. */
  lemma ContainsItself(s: string)
    ensures Contains(s, s)
  {
    assert OccursAt(s, s, 0);
  }

  /** How the webhooks of lang_graph_sms.py and lang_graph_wa.py decide that
      the questionnaire is over: the reply contains "Thank you". */
  predicate SignalsCompletion(reply: string)
  {
    Contains(reply, ThankYou)
  }

  /** The completion message itself is recognised. */
  lemma CompletionMessageSignals()
    ensures SignalsCompletion(CompletionMessage)
  {
    assert OccursAt(CompletionMessage, ThankYou, 0) by {
      assert CompletionMessage[0..|ThankYou|] == ThankYou;
    }
  }

  /** The intended test: the reply is the completion message or one of its
      variants. */
  predicate IsCompletionReply(options: seq<string>, reply: string)
  {
    reply == CompletionMessage || reply in options
  }

  /** Every variant chosen for the completion message is recognised by the
      intended test, whatever the random pick. */
  lemma CompletionAlwaysRecognised(table: seq<Variation>, pick: nat)
    requires table != [] && table[0].key == CompletionMessage
    requires forall i :: 0 <= i < |table| ==> pick < |table[i].options|
    ensures IsCompletionReply(table[0].options, HumanTouch(table, CompletionMessage, pick))
  {
    ContainsItself(CompletionMessage);
  }

  /** The second completion variant, spelled in three pieces so that its
      one capital T can be located. */
  const ThanksSoMuch := "Great! We've covered everything. " + "T" + "hanks so much for your responses!"

  /** "Thank you" does not occur in the second completion variant. */
  lemma ThanksSoMuchLacksThankYou()
    ensures !SignalsCompletion(ThanksSoMuch)
  {
    var a := "Great! We've covered everything. ";
    var c := "hanks so much for your responses!";
    assert 'T' !in a && 'T' !in c;
    forall i: nat | i <= |ThanksSoMuch|
      ensures !OccursAt(ThanksSoMuch, ThankYou, i)
    {
      if i + 9 <= |ThanksSoMuch| {
        if i < |a| {
          assert ThanksSoMuch[i] == a[i];
          assert ThanksSoMuch[i..i + 9][0] != 'T';
        } else if i > |a| {
          assert ThanksSoMuch[i] == c[i - |a| - 1];
          assert ThanksSoMuch[i..i + 9][0] != 'T';
        } else {
          assert ThanksSoMuch[i + 5] == c[4];
          assert ThanksSoMuch[i..i + 9][5] != ' ';
        }
      }
    }
  }

  // ---------------------------------------------------------------------
  // Job-title match

  /** `job_title in job.lower()` with `job_title = message.strip().lower()`. */
  predicate MentionsTitle(message: string, title: string)
  {
    Contains(Lower(title), Lower(Strip(message)))
  }

  /** The message names no title. */
  predicate NamesNoTitle(titles: seq<string>, message: string)
  {
    forall i :: 0 <= i < |titles| ==> !MentionsTitle(message, titles[i])
  }

  /** `titles[i]` is the first title the message names. */
  predicate IsFirstTitle(titles: seq<string>, message: string, i: int)
  {
    0 <= i < |titles| && MentionsTitle(message, titles[i])
    && forall j :: 0 <= j < i ==> !MentionsTitle(message, titles[j])
  }

  /** The first key of `job_questions`, in dict order, that the message
      names. */
  function MatchJobTitle(titles: seq<string>, message: string): (r: Option<string>)
    ensures NamesNoTitle(titles, message) <==> r.None?
    ensures forall i :: IsFirstTitle(titles, message, i) ==> r == Some(titles[i])
  {
    if titles == [] then None
    else if MentionsTitle(message, titles[0]) then
      assert forall i :: IsFirstTitle(titles, message, i) ==> i == 0 by {
        forall i | IsFirstTitle(titles, message, i) ensures i == 0 {
          assert !(0 < i);
        }
      }
      Some(titles[0])
    else
      var r := MatchJobTitle(titles[1..], message);
      assert NamesNoTitle(titles, message) <==> NamesNoTitle(titles[1..], message) by {
        assert forall k :: 1 <= k < |titles| ==> titles[k] == titles[1..][k - 1];
      }
      assert forall i :: IsFirstTitle(titles, message, i) ==> IsFirstTitle(titles[1..], message, i - 1) by {
        forall i | IsFirstTitle(titles, message, i) ensures IsFirstTitle(titles[1..], message, i - 1) {
          assert i != 0;
          forall j | 0 <= j < i - 1 ensures !MentionsTitle(message, titles[1..][j]) {
            assert titles[1..][j] == titles[j + 1];
          }
        }
      }
      r
  }

  /** The title the webhooks start the questions for: a match that is not
      the empty key. */
  function MatchedJob(titles: seq<string>, message: string): Option<string>
  {
    var m := MatchJobTitle(titles, message);
    if m.Some? && m.value != [] then m else None
  }

  /** A blank message names every title, so the first key is chosen. */
  lemma BlankMessagePicksFirst(titles: seq<string>, message: string)
    requires titles != [] && Strip(message) == []
    ensures MatchJobTitle(titles, message) == Some(titles[0])
  {
    assert OccursAt(Lower(titles[0]), Lower(Strip(message)), 0);
  }

  // ---------------------------------------------------------------------
  // Score extraction

  datatype Scores = Scores(overall: int, qualifications: int, enthusiasm: int, availability: int, feedback: string)

  const InitialScores := Scores(0, 0, 0, 0, "")

  const OverallPrefix := "Overall score:"
  const QualificationsPrefix := "Qualifications score:"
  const EnthusiasmPrefix := "Enthusiasm score:"
  const AvailabilityPrefix := "Availability score:"
  const SummaryPrefix := "Summary:"

  /** `line.split(":")[1]`: the text between the first and second colon. */
  function SecondPiece(line: string): string
  {
    var pieces := SplitOn(line, ':');
    if |pieces| >= 2 then pieces[1] else ""
  }

  /** `int(line.split(":")[1].strip())`, `None` where `int()` raises. */
  function FieldValue(line: string): Option<int>
  {
    ParseInt(Strip(SecondPiece(line)))
  }

  /** The guarded form: 0 where `int()` raises. */
  function ValueOrZero(line: string): int
  {
    match FieldValue(line)
    case Some(v) => v
    case None => 0
  }

  /** `line.split("Summary:")[1].strip()` for a line that starts with
      "Summary:": the text up to the next "Summary:", stripped. */
  function SummaryText(line: string): string
    requires StartsWith(line, SummaryPrefix)
  {
    var rest := line[|SummaryPrefix|..];
    match Find(rest, SummaryPrefix)
    case None => Strip(rest)
    case Some(k) => Strip(rest[..k])
  }

  predicate IsScoreLine(line: string)
  {
    || StartsWith(line, OverallPrefix) || StartsWith(line, QualificationsPrefix)
    || StartsWith(line, EnthusiasmPrefix) || StartsWith(line, AvailabilityPrefix)
  }

  /** The loop body of the guarded `extract_scores_from_evaluation`. */
  function ScanLine(s: Scores, line: string): Scores
  {
    if StartsWith(line, OverallPrefix) then s.(overall := ValueOrZero(line))
    else if StartsWith(line, QualificationsPrefix) then s.(qualifications := ValueOrZero(line))
    else if StartsWith(line, EnthusiasmPrefix) then s.(enthusiasm := ValueOrZero(line))
    else if StartsWith(line, AvailabilityPrefix) then s.(availability := ValueOrZero(line))
    else if StartsWith(line, SummaryPrefix) then s.(feedback := SummaryText(line))
    else s
  }

  /** The scores after scanning `lines` in order from the initial record. */
  function ScanLines(lines: seq<string>): Scores
  {
    if lines == [] then InitialScores else ScanLine(ScanLines(lines[..|lines| - 1]), lines[|lines| - 1])
  }

  /** `extract_scores_from_evaluation` of lang_graph_sms.py and
      lang_graph_wa.py. */
  method ExtractScores(evaluation: string) returns (r: Scores)
    ensures r == ScanLines(SplitOn(evaluation, '\n'))
  {
    var lines := SplitOn(evaluation, '\n');
    r := InitialScores;
    var i := 0;
    while i < |lines|
      invariant 0 <= i <= |lines|
      invariant r == ScanLines(lines[..i])
    {
      assert lines[..i + 1][..i] == lines[..i];
      r := ScanLine(r, lines[i]);
      i := i + 1;
    }
    assert lines[..i] == lines;
  }

  /** The last line of `lines` that starts with `prefix`. */
  function LastWith(lines: seq<string>, prefix: string): (r: Option<string>)
    ensures r.Some? ==> r.value in lines && StartsWith(r.value, prefix)
    ensures r.None? <==> forall i :: 0 <= i < |lines| ==> !StartsWith(lines[i], prefix)
  {
    if lines == [] then None
    else if StartsWith(lines[|lines| - 1], prefix) then Some(lines[|lines| - 1])
    else
      var r := LastWith(lines[..|lines| - 1], prefix);
      assert forall i :: 0 <= i < |lines| - 1 ==> lines[i] == lines[..|lines| - 1][i];
      r
  }

  function ScoreOf(lines: seq<string>, prefix: string): int
  {
    match LastWith(lines, prefix)
    case None => 0
    case Some(line) => ValueOrZero(line)
  }

  /** The five prefixes differ in their first character, so a line starts
      with at most one of them. */
  lemma PrefixesExclusive(line: string)
    ensures StartsWith(line, OverallPrefix) ==>
              !StartsWith(line, QualificationsPrefix) && !StartsWith(line, EnthusiasmPrefix)
              && !StartsWith(line, AvailabilityPrefix) && !StartsWith(line, SummaryPrefix)
    ensures StartsWith(line, QualificationsPrefix) ==>
              !StartsWith(line, EnthusiasmPrefix) && !StartsWith(line, AvailabilityPrefix) && !StartsWith(line, SummaryPrefix)
    ensures StartsWith(line, EnthusiasmPrefix) ==> !StartsWith(line, AvailabilityPrefix) && !StartsWith(line, SummaryPrefix)
    ensures StartsWith(line, AvailabilityPrefix) ==> !StartsWith(line, SummaryPrefix)
  {
    if line != [] {
      assert StartsWith(line, OverallPrefix) ==> line[0] == 'O';
      assert StartsWith(line, QualificationsPrefix) ==> line[0] == 'Q';
      assert StartsWith(line, EnthusiasmPrefix) ==> line[0] == 'E';
      assert StartsWith(line, AvailabilityPrefix) ==> line[0] == 'A';
      assert StartsWith(line, SummaryPrefix) ==> line[0] == 'S';
    }
  }

  /** Each score is that of the last line carrying its prefix, 0 when there
      is none (or when its `int()` raises); the feedback is that of the last
      "Summary:" line, "" when there is none. */
  lemma {:induction false} ScanLinesTakesLastMatch(lines: seq<string>)
    ensures ScanLines(lines).overall == ScoreOf(lines, OverallPrefix)
    ensures ScanLines(lines).qualifications == ScoreOf(lines, QualificationsPrefix)
    ensures ScanLines(lines).enthusiasm == ScoreOf(lines, EnthusiasmPrefix)
    ensures ScanLines(lines).availability == ScoreOf(lines, AvailabilityPrefix)
    ensures LastWith(lines, SummaryPrefix).None? ==> ScanLines(lines).feedback == ""
    ensures LastWith(lines, SummaryPrefix).Some? ==>
              ScanLines(lines).feedback == SummaryText(LastWith(lines, SummaryPrefix).value)
  {
    if lines != [] {
      ScanLinesTakesLastMatch(lines[..|lines| - 1]);
      PrefixesExclusive(lines[|lines| - 1]);
    }
  }

  /** The loop body of the unguarded extractor of lang_graph_whatsapp.py:
      `None` where `int()` raises. */
  function ScanLineStrict(s: Scores, line: string): Option<Scores>
  {
    if IsScoreLine(line) && FieldValue(line).None? then None else Some(ScanLine(s, line))
  }

  function ScanLinesStrict(lines: seq<string>): Option<Scores>
  {
    if lines == [] then Some(InitialScores)
    else
      match ScanLinesStrict(lines[..|lines| - 1])
      case None => None
      case Some(s) => ScanLineStrict(s, lines[|lines| - 1])
  }

  /** A line that `int()` does not make raise. */
  predicate LineParses(line: string)
  {
    IsScoreLine(line) ==> FieldValue(line).Some?
  }

  lemma AllOfSnoc(init: seq<string>, last: string, p: string -> bool)
    ensures (forall i :: 0 <= i < |init + [last]| ==> p((init + [last])[i])) <==>
              (forall i :: 0 <= i < |init| ==> p(init[i])) && p(last)
  {
    var lines := init + [last];
    assert lines[|init|] == last;
    assert forall i :: 0 <= i < |init| ==> lines[i] == init[i];
  }

  /** The unguarded extractor raises exactly when some score line does not
      hold an integer, and otherwise agrees with the guarded one. */
  lemma {:induction false} StrictAgreesWithGuarded(lines: seq<string>)
    ensures ScanLinesStrict(lines).Some? <==> forall i :: 0 <= i < |lines| ==> LineParses(lines[i])
    ensures ScanLinesStrict(lines).Some? ==> ScanLinesStrict(lines).value == ScanLines(lines)
  {
    if lines != [] {
      var init, last := lines[..|lines| - 1], lines[|lines| - 1];
      assert init + [last] == lines;
      StrictAgreesWithGuarded(init);
      AllOfSnoc(init, last, LineParses);
      match ScanLinesStrict(init)
      case None =>
      case Some(s) =>
        assert ScanLinesStrict(lines) == ScanLineStrict(s, last);
    }
  }

  lemma {:induction false} StrictFailureSticks(lines: seq<string>, i: nat)
    requires i <= |lines| && ScanLinesStrict(lines[..i]).None?
    ensures ScanLinesStrict(lines).None?
    decreases |lines| - i
  {
    if i < |lines| {
      assert lines[..i + 1][..i] == lines[..i];
      StrictFailureSticks(lines, i + 1);
    } else {
      assert lines[..i] == lines;
    }
  }

  /** `extract_scores_from_evaluation` of lang_graph_whatsapp.py, which lets
      the `ValueError` of `int()` escape (`None`). */
  method ExtractScoresStrict(evaluation: string) returns (r: Option<Scores>)
    ensures r == ScanLinesStrict(SplitOn(evaluation, '\n'))
  {
    var lines := SplitOn(evaluation, '\n');
    var s := InitialScores;
    var i := 0;
    while i < |lines|
      invariant 0 <= i <= |lines|
      invariant ScanLinesStrict(lines[..i]) == Some(s)
    {
      var line := lines[i];
      ScanStrictStep(lines, i, s);
      if IsScoreLine(line) && FieldValue(line).None? {
        StrictFailureSticks(lines, i + 1);
        return None;
      }
      s := ScanLine(s, line);
      i := i + 1;
    }
    assert lines[..i] == lines;
    r := Some(s);
  }

  lemma ScanStrictStep(lines: seq<string>, i: nat, s: Scores)
    requires i < |lines| && ScanLinesStrict(lines[..i]) == Some(s)
    ensures ScanLinesStrict(lines[..i + 1]) == ScanLineStrict(s, lines[i])
  {
    assert lines[..i + 1][..i] == lines[..i];
  }
}
