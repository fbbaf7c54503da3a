/** lang_graph_whatsapp.py: the synchronous screening bot. Its agent asks
    the questions without variations, the conversation is kept in the
    in-memory `user_state` dict, and the evaluation runs inside the request
    that completes the questions. The LLM's evaluation text is a
    parameter. */
module ScreeningWhatsapp {
  import opened Text
  import opened Screening

  const TitleRequest := "Thanks for responding! Before we get started, could you please specify the position you applied for?"
  const NoMatch := "Sorry, I couldn't find a matching job title. Could you please specify the job again?"

  /** An entry of `user_state`. */
  datatype ChatState =
    | AwaitingTitle
    | Asking(agent: JobScreeningAgent, question: nat)

  /** The module-level `user_state` dict. */
  class Conversations {
    var userState: map<string, ChatState>

    constructor ()
      ensures userState == map[]
    {
      userState := map[];
    }
  }

  /** What `run` returns for an agent at index `c` over `items`: the
      completion message itself at the end, the next question otherwise. */
  function ReplyAfterAnswer(items: seq<Question>, c: nat): string
  {
    var next := Advance(c, |items|);
    if next.1 then CompletionMessage else QuestionText(items, next.0, 0)
  }

  /** `JobScreeningAgent.run`. */
  method Run(agent: JobScreeningAgent, answer: string) returns (reply: string)
    modifies agent
    ensures agent.responses == old(agent.responses) + [answer]
    ensures agent.currentQuestion == Advance(old(agent.currentQuestion), |agent.questions.items|).0
    ensures reply == ReplyAfterAnswer(agent.questions.items, old(agent.currentQuestion))
    ensures agent.questions == old(agent.questions) && agent.jobTitle == old(agent.jobTitle)
  {
    agent.Record(answer);
    var done := agent.MoveToNextQuestion();
    if done {
      return CompletionMessage;
    }
    reply := agent.GetQuestion(0);
  }

  /** The end of the questions is always recognised here: the reply is then
      the completion message, which contains "Thank you". */
  lemma EndIsSignalled(items: seq<Question>, c: nat)
    requires Advance(c, |items|).1
    ensures ReplyAfterAnswer(items, c) == CompletionMessage && SignalsCompletion(ReplyAfterAnswer(items, c))
  {
    CompletionMessageSignals();
  }

  /** The title whose catalogue list a message from `sender` extends: the
      matched title at the title step, none otherwise. */
  function ScreenedJob(states: map<string, ChatState>, titles: seq<string>, sender: string, body: string): Option<string>
  {
    if sender in states && states[sender].AwaitingTitle? then MatchedJob(titles, body) else None
  }

  /** `whatsapp_reply` for a message `body` from `sender`; `evaluation` is
      what the LLM answers if the questions end. The reply is `None` when
      the request raises. Only the catalogue list of a title being started
      is extended. */
  method WhatsappReply(conv: Conversations, catalogue: map<string, QuestionList>, titles: seq<string>,
                       sender: string, body: string, evaluation: string)
    returns (reply: Option<string>)
    modifies conv, ListOf(catalogue, ScreenedJob(conv.userState, titles, sender, body))
    modifies if sender in conv.userState && conv.userState[sender].Asking? then {conv.userState[sender].agent} else {}
    // a first message only asks for the job title
    ensures sender !in old(conv.userState) ==>
              conv.userState == old(conv.userState)[sender := AwaitingTitle] && reply == Some(TitleRequest)
    // a job title that names a catalogue key installs a fresh agent
    ensures sender in old(conv.userState) && old(conv.userState[sender]).AwaitingTitle? ==>
              var m := MatchJobTitle(titles, body);
              if m.Some? && m.value != [] then
                && sender in conv.userState && conv.userState[sender].Asking?
                && var agent := conv.userState[sender].agent;
                && fresh(agent) && agent.jobTitle == m.value && agent.currentQuestion == 0 && agent.responses == []
                && agent.questions.items == old(BuiltItems(catalogue, m.value))
                && (m.value in catalogue ==> agent.questions == catalogue[m.value])
                && (m.value !in catalogue ==> fresh(agent.questions))
                && conv.userState == old(conv.userState)[sender := Asking(agent, 0)]
                && reply == Some(QuestionText(old(BuiltItems(catalogue, m.value)), 0, 0))
              else
                conv.userState == old(conv.userState) && reply == Some(NoMatch)
    // an answer: the next question, or the end, the evaluation and a fresh start
    ensures sender in old(conv.userState) && old(conv.userState[sender]).Asking? ==>
              var agent := old(conv.userState[sender]).agent;
              var r := ReplyAfterAnswer(old(agent.questions.items), old(agent.currentQuestion));
              && agent.responses == old(agent.responses) + [body]
              && agent.currentQuestion == Advance(old(agent.currentQuestion), |old(agent.questions.items)|).0
              && agent.questions == old(agent.questions) && agent.questions.items == old(agent.questions.items)
              && (!SignalsCompletion(r) ==>
                    conv.userState == old(conv.userState)[sender := Asking(agent, agent.currentQuestion)]
                    && reply == Some(r))
              && (SignalsCompletion(r) && ScanLinesStrict(SplitOn(evaluation, '\n')).Some? ==>
                    conv.userState == old(conv.userState) - {sender} && reply == Some(r))
              && (SignalsCompletion(r) && ScanLinesStrict(SplitOn(evaluation, '\n')).None? ==>
                    conv.userState == old(conv.userState) && reply.None?)
  {
    if sender !in conv.userState {
      conv.userState := conv.userState[sender := AwaitingTitle];
      return Some(TitleRequest);
    }
    match conv.userState[sender]
    case AwaitingTitle =>
      var m := MatchJobTitle(titles, body);
      if m.Some? && m.value != [] {
        reply := StartQuestions(conv, catalogue, sender, m.value);
      } else {
        reply := Some(NoMatch);
      }
    case Asking(agent, _) =>
      reply := Answer(conv, agent, sender, body, evaluation);
  }

  /** The 'ask_job_title' step once the title names catalogue key `job`. */
  method StartQuestions(conv: Conversations, catalogue: map<string, QuestionList>, sender: string, job: string)
    returns (reply: Option<string>)
    modifies conv, ListOf(catalogue, Some(job))
    ensures sender in conv.userState && conv.userState[sender].Asking?
    ensures var agent := conv.userState[sender].agent;
            && fresh(agent) && agent.jobTitle == job && agent.currentQuestion == 0 && agent.responses == []
            && agent.questions.items == old(BuiltItems(catalogue, job))
            && (job in catalogue ==> agent.questions == catalogue[job])
            && (job !in catalogue ==> fresh(agent.questions))
            && conv.userState == old(conv.userState)[sender := Asking(agent, 0)]
            && reply == Some(QuestionText(old(BuiltItems(catalogue, job)), 0, 0))
  {
    ghost var items := BuiltItems(catalogue, job);
    var agent := new JobScreeningAgent(job, catalogue, []);
    assert agent.questions.items == items;
    assert conv.userState == old(conv.userState);
    conv.userState := conv.userState[sender := Asking(agent, 0)];
    var question := agent.GetQuestion(0);
    assert question == QuestionText(agent.questions.items, 0, 0);
    conv.userState := conv.userState[sender := Asking(agent, agent.currentQuestion)];
    reply := Some(question);
  }

  /** The answering step for the stored `agent`. */
  method Answer(conv: Conversations, agent: JobScreeningAgent, sender: string, body: string, evaluation: string)
    returns (reply: Option<string>)
    modifies conv, agent
    ensures var r := ReplyAfterAnswer(old(agent.questions.items), old(agent.currentQuestion));
            && agent.responses == old(agent.responses) + [body]
            && agent.currentQuestion == Advance(old(agent.currentQuestion), |old(agent.questions.items)|).0
            && agent.questions == old(agent.questions) && agent.questions.items == old(agent.questions.items)
            && (!SignalsCompletion(r) ==>
                  conv.userState == old(conv.userState)[sender := Asking(agent, agent.currentQuestion)]
                  && reply == Some(r))
            && (SignalsCompletion(r) && ScanLinesStrict(SplitOn(evaluation, '\n')).Some? ==>
                  conv.userState == old(conv.userState) - {sender} && reply == Some(r))
            && (SignalsCompletion(r) && ScanLinesStrict(SplitOn(evaluation, '\n')).None? ==>
                  conv.userState == old(conv.userState) && reply.None?)
  {
    var r := Run(agent, body);
    if SignalsCompletion(r) {
      var scores := ExtractScoresStrict(evaluation);
      if scores.None? {
        return None;
      }
      conv.userState := conv.userState - {sender};
      reply := Some(r);
    } else {
      var question := agent.GetQuestion(0);
      conv.userState := conv.userState[sender := Asking(agent, agent.currentQuestion)];
      reply := Some(r);
    }
  }

  /** From index 0 over `n` questions, the `k`-th answer is answered with
      the completion message exactly when `k == n`, and recognised as the
      end. */
  lemma {:induction false} CompletesOnLastAnswer(items: seq<Question>, k: nat)
    requires items != [] && 1 <= k <= |items|
    ensures Advance(AfterAnswers(|items|, k - 1).0, |items|).1 <==> k == |items|
    ensures k == |items| ==> SignalsCompletion(ReplyAfterAnswer(items, AfterAnswers(|items|, k - 1).0))
  {
    AnswersToComplete(|items|, k);
    AnswersToComplete(|items|, k - 1);
    if k == |items| {
      EndIsSignalled(items, AfterAnswers(|items|, k - 1).0);
    }
  }
}
