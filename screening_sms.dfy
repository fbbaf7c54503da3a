/** lang_graph_sms.py: the screening bot whose conversations live in the
    SQLite tables `user_states` and `candidates`, modelled as maps keyed by
    phone number with INSERT OR REPLACE semantics. The agent is rebuilt from
    the stored row on every message. Messages handed to
    `send_delayed_message` are returned in order; delays and threads are not
    modelled. */
module ScreeningSms {
  import opened Text
  import opened Intake
  import opened Screening

  // ---------------------------------------------------------------------
  // The tables

  datatype Step = AskJobTitle | AskingQuestions | Completed

  /** A `user_states` row. `responses` is stored as JSON and read back as
      the same list. */
  datatype UserState = UserState(step: Step, jobTitle: Option<string>, currentQuestion: nat, responses: seq<string>)

  /** The row saved for `{'step': 'ask_job_title'}`: no title, index 0 and
      `json.dumps([])`. */
  const TitleRequested := UserState(AskJobTitle, None, 0, [])

  /** A `candidates` row. */
  datatype Candidate = Candidate(personId: int, jobId: int, name: Option<string>, email: Option<string>)

  /** The number with every "whatsapp:" removed, then stripped. */
  function CleanPhone(phone: string): string
  {
    Strip(RemoveAll(phone, "whatsapp:"))
  }

  /** Every row past the title step names its job. */
  predicate ValidStates(states: map<string, UserState>)
  {
    forall p :: p in states ==> states[p].step == AskJobTitle || states[p].jobTitle.Some?
  }

  /** Saving a row that names its job (or is at the title step) keeps the
      table valid. */
  lemma SaveKeepsValid(states: map<string, UserState>, phone: string, state: UserState)
    requires ValidStates(states)
    requires state.step == AskJobTitle || state.jobTitle.Some?
    ensures ValidStates(states[phone := state])
  {
  }

  /** `DatabaseManager` over the two tables. */
  class DatabaseManager {
    var userStates: map<string, UserState>
    var candidates: map<string, Candidate>

    /** `DatabaseManager()`: the tables are created if missing, so rows of
        an earlier run survive. */
    constructor (states0: map<string, UserState>, candidates0: map<string, Candidate>)
      ensures userStates == states0 && candidates == candidates0
    {
      userStates := states0;
      candidates := candidates0;
    }

    /** Every row past the title step names its job. */
    predicate Valid()
      reads this
    {
      ValidStates(userStates)
    }

    /** `get_user_state`: the row saved for the number, or `None`. */
    function GetUserState(phone: string): (r: Option<UserState>)
      reads this
      ensures r.Some? <==> phone in userStates
      ensures r.Some? ==> r.value == userStates[phone]
      ensures Valid() && r.Some? ==> r.value.step == AskJobTitle || r.value.jobTitle.Some?
    {
      if phone in userStates then Some(userStates[phone]) else None
    }

    /** `save_user_state`: INSERT OR REPLACE on the phone number. */
    method SaveUserState(phone: string, state: UserState)
      modifies this
      ensures userStates == old(userStates)[phone := state] && candidates == old(candidates)
      ensures GetUserState(phone) == Some(state)
      ensures forall p :: p != phone ==> GetUserState(p) == old(GetUserState(p))
    {
      userStates := userStates[phone := state];
    }

    /** `delete_user_state`: only that number's row goes. */
    method DeleteUserState(phone: string)
      modifies this
      ensures userStates == old(userStates) - {phone} && candidates == old(candidates)
      ensures GetUserState(phone).None?
      ensures forall p :: p != phone ==> GetUserState(p) == old(GetUserState(p))
    {
      userStates := userStates - {phone};
    }

    /** `get_candidate_info`: a row under the raw number or under the
        cleaned one. The query has no ORDER BY; the model takes the raw
        number's row when both exist. */
    function GetCandidateInfo(phone: string): (r: Option<Candidate>)
      reads this
      ensures r.Some? <==> phone in candidates || CleanPhone(phone) in candidates
      ensures r.Some? ==>
                (phone in candidates && r.value == candidates[phone])
                || (CleanPhone(phone) in candidates && r.value == candidates[CleanPhone(phone)])
    {
      if phone in candidates then Some(candidates[phone])
      else if CleanPhone(phone) in candidates then Some(candidates[CleanPhone(phone)])
      else None
    }

    /** `add_candidate`: INSERT OR REPLACE on the phone number. */
    method AddCandidate(phone: string, c: Candidate)
      modifies this
      ensures candidates == old(candidates)[phone := c] && userStates == old(userStates)
      ensures GetCandidateInfo(phone) == Some(c)
    {
      candidates := candidates[phone := c];
    }
  }

  // ---------------------------------------------------------------------
  // Messages

  const CompletionOptions := [
    "Perfect! That's all the questions I have for you. Thank you for your time!",
    ThanksSoMuch,
    "Excellent! That completes our screening. Thank you for participating!"]

  const GreetingOptions := [
    "Hi there! Thanks for getting back to us!",
    "Hello! Great to hear from you!",
    "Hey! Thanks for responding so quickly!"]

  const Variations := [Variation(CompletionMessage, CompletionOptions), Variation(Greeting, GreetingOptions)]

  const Acknowledgments := ["Got it!", "Thanks for that info.", "Interesting!", "I see.", "Noted."]

  const NotRegistered := "Sorry, I couldn't find your information in our system. Please make sure you're using the phone number you provided during your job application."
  const NoMatch := "Hmm, I couldn't find a matching job title in our system. Could you please try specifying the position again? Maybe check the job posting for the exact title?"
  const NextSteps := "Someone from our team will review your responses and get back to you soon. Have a great day!"

  function AckMessages(ch: Choices): seq<string>
    requires ValidChoices(ch)
  {
    if ch.ack.Some? then [Acknowledgments[ch.ack.value]] else []
  }

  /** What `run` returns for an agent at index `c` over `items`. */
  function ReplyAfterAnswer(items: seq<Question>, c: nat, ch: Choices): string
    requires ValidChoices(ch)
  {
    var next := Advance(c, |items|);
    if next.1 then HumanTouch(Variations, CompletionMessage, ch.pick) else QuestionText(items, next.0, ch.prefix)
  }

  // ---------------------------------------------------------------------
  // The agent's `run`

  /** `JobScreeningAgent.run` for the agent of `phone`: record the answer,
      save the row, advance and, unless done, save the new index too. */
  method Run(agent: JobScreeningAgent, db: DatabaseManager, phone: string, answer: string, ch: Choices)
    returns (reply: string)
    requires ValidChoices(ch)
    modifies agent, db
    ensures agent.responses == old(agent.responses) + [answer]
    ensures agent.currentQuestion == Advance(old(agent.currentQuestion), |agent.questions.items|).0
    ensures agent.questions == old(agent.questions) && agent.jobTitle == old(agent.jobTitle)
    ensures reply == ReplyAfterAnswer(agent.questions.items, old(agent.currentQuestion), ch)
    ensures db.userStates
            == old(db.userStates)[phone := UserState(AskingQuestions, Some(agent.jobTitle), agent.currentQuestion, agent.responses)]
    ensures db.candidates == old(db.candidates)
  {
    agent.Record(answer);
    var state := UserState(AskingQuestions, Some(agent.jobTitle), agent.currentQuestion, agent.responses);
    db.SaveUserState(phone, state);
    var done := agent.MoveToNextQuestion();
    if done {
      return HumanTouch(Variations, CompletionMessage, ch.pick);
    }
    reply := agent.GetQuestion(ch.prefix);
    db.SaveUserState(phone, state.(currentQuestion := agent.currentQuestion));
  }

  // ---------------------------------------------------------------------
  // The webhook

  /** The row saved on completion: a shallow copy of the row read at the
      start. Its index is the old one; its responses list is the one the
      agent appended to only when it was non-empty (`existing or []`). */
  function CompletedCopy(user: UserState, answer: string): UserState
  {
    user.(step := Completed, responses := if user.responses != [] then user.responses + [answer] else [])
  }

  /** The 'asking_questions' step for the row `user` whose agent works over
      `items`: the row saved last and the messages sent. */
  function AnswerStep(user: UserState, items: seq<Question>, body: string, ch: Choices): (UserState, seq<string>)
    requires ValidChoices(ch)
  {
    var reply := ReplyAfterAnswer(items, user.currentQuestion, ch);
    if SignalsCompletion(reply) then (CompletedCopy(user, body), AckMessages(ch) + [reply, NextSteps])
    else
      (UserState(AskingQuestions, user.jobTitle, Advance(user.currentQuestion, |items|).0, user.responses + [body]),
       AckMessages(ch) + [reply])
  }

  /** The title whose catalogue list a message from `sender` extends: the
      row's title while asking, the matched title at the title step. */
  function ScreenedJob(states: map<string, UserState>, titles: seq<string>, sender: string, body: string): Option<string>
  {
    if sender !in states then None
    else match states[sender].step
      case AskingQuestions => states[sender].jobTitle
      case AskJobTitle => MatchedJob(titles, body)
      case Completed => None
  }

  /** `whatsapp_reply` for a message `body` from `sender`. Only the
      catalogue list of the title being screened is extended. */
  method WhatsappReply(db: DatabaseManager, catalogue: map<string, QuestionList>, titles: seq<string>,
                       sender: string, body: string, ch: Choices)
    returns (sent: seq<string>)
    requires db.Valid() && ValidChoices(ch)
    modifies db, ListOf(catalogue, ScreenedJob(db.userStates, titles, sender, body))
    ensures db.Valid() && db.candidates == old(db.candidates)
    // an answer: the agent is rebuilt, extending the shared list again
    ensures sender in old(db.userStates) && old(db.userStates[sender]).step == AskingQuestions ==>
              var user := old(db.userStates[sender]);
              var items := old(BuiltItems(catalogue, user.jobTitle.value));
              && (user.jobTitle.value in catalogue ==> catalogue[user.jobTitle.value].items == items)
              && db.userStates == old(db.userStates)[sender := AnswerStep(user, items, body, ch).0]
              && sent == AnswerStep(user, items, body, ch).1
    // an unknown number is greeted only when it is a registered candidate
    ensures sender !in old(db.userStates) ==>
              if old(db.GetCandidateInfo(sender)).None? then
                db.userStates == old(db.userStates) && sent == [NotRegistered]
              else
                db.userStates == old(db.userStates)[sender := TitleRequested]
                && sent == [HumanTouch(Variations, Greeting, ch.pick), JobRequest]
    // a job title that names a catalogue key starts the questions
    ensures sender in old(db.userStates) && old(db.userStates[sender]).step == AskJobTitle ==>
              var m := MatchJobTitle(titles, body);
              if m.Some? && m.value != [] then
                && db.userStates == old(db.userStates)[sender := UserState(AskingQuestions, m, 0, [])]
                && sent == [Confirmation(m.value), QuestionText(old(BuiltItems(catalogue, m.value)), 0, ch.prefix)]
                && (m.value in catalogue ==> catalogue[m.value].items == old(BuiltItems(catalogue, m.value)))
              else
                db.userStates == old(db.userStates) && sent == [NoMatch]
    // a finished conversation ignores the message
    ensures sender in old(db.userStates) && old(db.userStates[sender]).step == Completed ==>
              db.userStates == old(db.userStates) && sent == []
  {
    var user := db.GetUserState(sender);
    if user.None? {
      sent := Greet(db, sender, ch);
      return;
    }
    match user.value.step
    case AskJobTitle =>
      sent := ChooseJob(db, catalogue, titles, sender, body, ch);
    case Completed =>
      sent := [];
    case AskingQuestions =>
      sent := Answer(db, catalogue, sender, user.value, body, ch);
  }

  /** A number without a row. */
  method Greet(db: DatabaseManager, sender: string, ch: Choices) returns (sent: seq<string>)
    requires db.Valid() && ValidChoices(ch)
    modifies db
    ensures db.Valid() && db.candidates == old(db.candidates)
    ensures old(db.GetCandidateInfo(sender)).None? ==> db.userStates == old(db.userStates) && sent == [NotRegistered]
    ensures old(db.GetCandidateInfo(sender)).Some? ==>
              db.userStates == old(db.userStates)[sender := TitleRequested]
              && sent == [HumanTouch(Variations, Greeting, ch.pick), JobRequest]
  {
    var info := db.GetCandidateInfo(sender);
    if info.None? {
      return [NotRegistered];
    }
    db.SaveUserState(sender, TitleRequested);
    sent := [HumanTouch(Variations, Greeting, ch.pick), JobRequest];
  }

  /** The 'ask_job_title' step. */
  method ChooseJob(db: DatabaseManager, catalogue: map<string, QuestionList>, titles: seq<string>,
                   sender: string, body: string, ch: Choices)
    returns (sent: seq<string>)
    requires db.Valid() && ValidChoices(ch)
    modifies db, ListOf(catalogue, MatchedJob(titles, body))
    ensures db.Valid() && db.candidates == old(db.candidates)
    ensures var m := MatchJobTitle(titles, body);
            if m.Some? && m.value != [] then
              && db.userStates == old(db.userStates)[sender := UserState(AskingQuestions, m, 0, [])]
              && sent == [Confirmation(m.value), QuestionText(old(BuiltItems(catalogue, m.value)), 0, ch.prefix)]
              && (m.value in catalogue ==> catalogue[m.value].items == old(BuiltItems(catalogue, m.value)))
            else
              db.userStates == old(db.userStates) && sent == [NoMatch]
  {
    var m := MatchJobTitle(titles, body);
    if m.None? || m.value == [] {
      return [NoMatch];
    }
    sent := StartQuestions(db, catalogue, sender, m.value, ch);
  }

  /** The agent built for `job` (its list extended in the catalogue) asks
      its question 0. */
  method FirstQuestion(catalogue: map<string, QuestionList>, job: string, prefix: nat)
    returns (question: string)
    requires prefix <= |Prefixes|
    modifies ListOf(catalogue, Some(job))
    ensures question == QuestionText(old(BuiltItems(catalogue, job)), 0, prefix)
    ensures job in catalogue ==> catalogue[job].items == old(BuiltItems(catalogue, job))
  {
    ghost var items := BuiltItems(catalogue, job);
    var agent := new JobScreeningAgent(job, catalogue, []);
    assert agent.questions.items == items && agent.currentQuestion == 0;
    question := agent.GetQuestion(prefix);
  }

  /** A title was matched: the row is saved at index 0 and the agent built
      for the title asks the first question. */
  method StartQuestions(db: DatabaseManager, catalogue: map<string, QuestionList>,
                        sender: string, job: string, ch: Choices)
    returns (sent: seq<string>)
    requires db.Valid() && ValidChoices(ch)
    modifies db, ListOf(catalogue, Some(job))
    ensures db.Valid() && db.candidates == old(db.candidates)
    ensures db.userStates == old(db.userStates)[sender := UserState(AskingQuestions, Some(job), 0, [])]
    ensures sent == [Confirmation(job), QuestionText(old(BuiltItems(catalogue, job)), 0, ch.prefix)]
    ensures job in catalogue ==> catalogue[job].items == old(BuiltItems(catalogue, job))
  {
    var question := FirstQuestion(catalogue, job, ch.prefix);
    SaveKeepsValid(db.userStates, sender, UserState(AskingQuestions, Some(job), 0, []));
    db.SaveUserState(sender, UserState(AskingQuestions, Some(job), 0, []));
    sent := [Confirmation(job), question];
  }

  /** The 'asking_questions' step for the row `user` read at the start. */
  method Answer(db: DatabaseManager, catalogue: map<string, QuestionList>, sender: string,
                user: UserState, body: string, ch: Choices)
    returns (sent: seq<string>)
    requires db.Valid() && ValidChoices(ch) && user.jobTitle.Some?
    modifies db, ListOf(catalogue, user.jobTitle)
    ensures db.Valid() && db.candidates == old(db.candidates)
    ensures var items := old(BuiltItems(catalogue, user.jobTitle.value));
            && (user.jobTitle.value in catalogue ==> catalogue[user.jobTitle.value].items == items)
            && db.userStates == old(db.userStates)[sender := AnswerStep(user, items, body, ch).0]
            && sent == AnswerStep(user, items, body, ch).1
  {
    var title := user.jobTitle.value;
    ghost var items := BuiltItems(catalogue, title);
    var agent := new JobScreeningAgent(title, catalogue, user.responses);
    assert agent.questions.items == items;
    agent.currentQuestion := user.currentQuestion;
    sent := AckMessages(ch);
    var reply := Run(agent, db, sender, body, ch);
    if SignalsCompletion(reply) {
      sent := sent + [reply, NextSteps];
      db.SaveUserState(sender, CompletedCopy(user, body));
    } else {
      sent := sent + [reply];
    }
  }

  // ---------------------------------------------------------------------
  // The background evaluation

  /** The text appended to the person's description. */
  function SummaryNote(s: Scores): string
  {
    "\n\nChatbot Summary: " + s.feedback + "\n\nOverall Score: " + IntToString(s.overall)
    + "\n\nQualifications Score: " + IntToString(s.qualifications)
    + "\n\nEnthusiasm Score: " + IntToString(s.enthusiasm)
    + "\n\nAvailability Score: " + IntToString(s.availability)
  }

  /** The PUT to `people/{personId}`. */
  datatype PersonUpdate = PersonUpdate(personId: int, body: string)

  /** `run_evaluation` once the LLM has answered `evaluation` and the Loxo
      GET has yielded `personDescription`: its text after `get_text` ("" for
      a failed GET), or `None` for a JSON null. Without a candidate row
      nothing is sent and the row stays. A null description makes the
      `+=` raise, so the thread ends before the PUT and the row stays. */
  method RunEvaluation(db: DatabaseManager, phone: string, evaluation: string, personDescription: Option<string>)
    returns (put: Option<PersonUpdate>)
    modifies db
    ensures db.candidates == old(db.candidates)
    ensures old(db.GetCandidateInfo(phone)).None? ==> put.None? && db.userStates == old(db.userStates)
    ensures personDescription.None? ==> put.None? && db.userStates == old(db.userStates)
    ensures old(db.GetCandidateInfo(phone)).Some? && personDescription.Some? ==>
              var c := old(db.GetCandidateInfo(phone)).value;
              var s := ScanLines(SplitOn(evaluation, '\n'));
              && put == Some(PersonUpdate(c.personId, JobDescriptionLiteral(IntToString(c.jobId), personDescription.value + SummaryNote(s))))
              && db.userStates == old(db.userStates) - {phone}
  {
    var s := ExtractScores(evaluation);
    var info := db.GetCandidateInfo(phone);
    if info.None? || personDescription.None? {
      return None;
    }
    var desc := personDescription.value + SummaryNote(s);
    put := Some(PersonUpdate(info.value.personId, JobDescriptionLiteral(IntToString(info.value.jobId), desc)));
    db.DeleteUserState(phone);
  }

  // ---------------------------------------------------------------------
  // /add_candidate

  /** The JSON body of `/add_candidate`; absent keys are `None`. */
  datatype CandidateRequest = CandidateRequest(
    phone: Option<string>, personId: Option<int>, jobId: Option<int>, name: Option<string>, email: Option<string>)

  /** `all([phone_number, person_id, job_id])`: none is missing, empty or 0. */
  predicate Complete(req: CandidateRequest)
  {
    && req.phone.Some? && req.phone.value != []
    && req.personId.Some? && req.personId.value != 0
    && req.jobId.Some? && req.jobId.value != 0
  }

  /** `/add_candidate`: 400 and no write when a required field is falsy,
      otherwise the row is stored and 200. */
  method AddCandidateRoute(db: DatabaseManager, req: CandidateRequest) returns (status: int)
    modifies db
    ensures status == 200 || status == 400
    ensures status == 400 <==> !Complete(req)
    ensures status == 400 ==> db.candidates == old(db.candidates) && db.userStates == old(db.userStates)
    ensures status == 200 ==>
              var c := Candidate(req.personId.value, req.jobId.value, req.name, req.email);
              && db.candidates == old(db.candidates)[req.phone.value := c]
              && db.userStates == old(db.userStates)
              && db.GetCandidateInfo(req.phone.value) == Some(c)
  {
    if !Complete(req) {
      return 400;
    }
    db.AddCandidate(req.phone.value, Candidate(req.personId.value, req.jobId.value, req.name, req.email));
    status := 200;
  }

  // ---------------------------------------------------------------------
  // The rebuilt agent never finishes

  /** As written: the shared list's length, the stored index and whether
      `run` signalled the end, after the title match and `j` answers to the
      questions of a job with `k` of its own. Every message rebuilds the
      agent and so extends the shared list by the three fixed questions. */
  function Rebuilt(k: nat, j: nat): (nat, nat, bool)
  {
    if j == 0 then (k + 3, 0, false)
    else
      var prev := Rebuilt(k, j - 1);
      var len := prev.0 + 3;
      var a := Advance(prev.1, len);
      (len, a.0, a.1)
  }

  /** The list grows by three per answer, the index by one, and the end is
      never signalled. */
  lemma {:induction false} RebuiltNeverFinishes(k: nat, j: nat)
    ensures Rebuilt(k, j) == (k + 3 * (j + 1), j, false)
  {
    if j > 0 {
      RebuiltNeverFinishes(k, j - 1);
    }
  }

  /** `Rebuilt` is what successive `Answer` steps do. From a shared list of
      `Rebuilt(k, j).0` questions and a row at index `Rebuilt(k, j).1`, the
      agent `Answer` builds works over the list extended once more; the row
      it saves and that list are those of `Rebuilt(k, j + 1)`, and the end
      is not signalled (unless the next question itself says "Thank you"). */
  lemma {:induction false} AnswerStepIsRebuilt(k: nat, j: nat, user: UserState, list: seq<Question>,
                                               body: string, ch: Choices)
    requires ValidChoices(ch) && user.step == AskingQuestions
    requires |list| == Rebuilt(k, j).0 && user.currentQuestion == Rebuilt(k, j).1
    requires !SignalsCompletion(QuestionText(list + FixedQuestions, j + 1, ch.prefix))
    ensures |list + FixedQuestions| == Rebuilt(k, j + 1).0
    ensures var row := AnswerStep(user, list + FixedQuestions, body, ch).0;
            row.step == AskingQuestions && row.currentQuestion == Rebuilt(k, j + 1).1
    ensures !Rebuilt(k, j + 1).2
  {
    RebuiltNeverFinishes(k, j);
    RebuiltNeverFinishes(k, j + 1);
  }

  /** A job with no questions of its own: an agent that kept its three
      questions signals the end on the third answer; the rebuilt one does
      not. */
  lemma ThirdAnswerDoesNotFinish()
    ensures AfterAnswers(3, 3).1
    ensures !Rebuilt(0, 3).2
  {
    AnswersToComplete(3, 3);
    RebuiltNeverFinishes(0, 3);
  }
}
