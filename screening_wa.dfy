/** lang_graph_wa.py: the WhatsApp screening bot that keeps its conversations
    in the in-memory `user_state` dict. Messages handed to
    `send_delayed_message` are returned in the order they are handed over;
    the delays, the threads and the background evaluation are not modelled. */
module ScreeningWa {
  import opened Text
  import opened Screening

  const CompletionOptions := [
    "Perfect! That's all the questions I have for you. Thank you for your time! ",
    ThanksSoMuch,
    "Excellent! That completes our screening. Thank you for participating!"]

  const GreetingOptions := [
    "Hi there! Thanks for getting back to us! \U{F8FF}\U{FC}\U{EB}\U{E3}",
    "Hello! Great to hear from you!",
    "Hey! Thanks for responding so quickly!"]

  const Variations := [Variation(CompletionMessage, CompletionOptions), Variation(Greeting, GreetingOptions)]

  const Acknowledgments := ["Got it! \U{F8FF}\U{FC}\U{EB}\U{E7}", "Thanks for that info.", "Interesting!", "I see.", "Noted."]

  const NoMatch := "Hmm, I couldn't find a matching job title in our system. Could you please try specifying the position again? Maybe check the job posting for the exact title? "
  const NextSteps := "Someone from our team will review your responses and get back to you soon. Have a great day! "

  /** An entry of `user_state`: `{'step': 'ask_job_title'}`, or the agent
      with the stored question index under 'asking_questions' or 'completed'. */
  datatype ChatState =
    | AwaitingTitle
    | Asking(agent: JobScreeningAgent, question: nat)
    | Completed(agent: JobScreeningAgent, question: nat)

  /** The module-level `user_state` dict. */
  class Conversations {
    var userState: map<string, ChatState>

    constructor ()
      ensures userState == map[]
    {
      userState := map[];
    }
  }

  /** What `run` returns for an agent at index `c` over `items`. */
  function ReplyAfterAnswer(items: seq<Question>, c: nat, ch: Choices): string
    requires ValidChoices(ch)
  {
    var next := Advance(c, |items|);
    if next.1 then HumanTouch(Variations, CompletionMessage, ch.pick) else QuestionText(items, next.0, ch.prefix)
  }

  /** `JobScreeningAgent.run`: record the answer, advance, and answer with
      the next question or a variant of the completion message. */
  method Run(agent: JobScreeningAgent, answer: string, ch: Choices) returns (reply: string)
    requires ValidChoices(ch)
    modifies agent
    ensures agent.responses == old(agent.responses) + [answer]
    ensures agent.currentQuestion == Advance(old(agent.currentQuestion), |agent.questions.items|).0
    ensures reply == ReplyAfterAnswer(agent.questions.items, old(agent.currentQuestion), ch)
    ensures agent.questions == old(agent.questions) && agent.jobTitle == old(agent.jobTitle)
  {
    agent.Record(answer);
    var done := agent.MoveToNextQuestion();
    if done {
      return HumanTouch(Variations, CompletionMessage, ch.pick);
    }
    reply := agent.GetQuestion(ch.prefix);
  }

  function AckMessages(ch: Choices): seq<string>
    requires ValidChoices(ch)
  {
    if ch.ack.Some? then [Acknowledgments[ch.ack.value]] else []
  }

  /** The title whose catalogue list a message from `sender` extends: the
      matched title at the title step, none otherwise. */
  function ScreenedJob(states: map<string, ChatState>, titles: seq<string>, sender: string, body: string): Option<string>
  {
    if sender in states && states[sender].AwaitingTitle? then MatchedJob(titles, body) else None
  }

  /** `whatsapp_reply` for a message `body` from `sender`. Only the
      catalogue list of a title being started is extended. */
  method WhatsappReply(conv: Conversations, titles: seq<string>, catalogue: map<string, QuestionList>,
                       sender: string, body: string, ch: Choices)
    returns (sent: seq<string>)
    requires ValidChoices(ch)
    modifies conv, ListOf(catalogue, ScreenedJob(conv.userState, titles, sender, body))
    modifies if sender in conv.userState && !conv.userState[sender].AwaitingTitle? then {conv.userState[sender].agent} else {}
    // a first message only asks for the job title
    ensures sender !in old(conv.userState) ==>
              && conv.userState == old(conv.userState)[sender := AwaitingTitle]
              && sent == [HumanTouch(Variations, Greeting, ch.pick), JobRequest]
    // a job title that names a catalogue key starts the questions
    ensures sender in old(conv.userState) && old(conv.userState[sender]).AwaitingTitle? ==>
              var m := MatchJobTitle(titles, body);
              if m.Some? && m.value != [] then
                && sender in conv.userState && conv.userState[sender].Asking?
                && var agent := conv.userState[sender].agent;
                && fresh(agent) && agent.jobTitle == m.value && agent.currentQuestion == 0 && agent.responses == []
                && agent.questions.items == old(BuiltItems(catalogue, m.value))
                && (m.value in catalogue ==> agent.questions == catalogue[m.value])
                && conv.userState == old(conv.userState)[sender := Asking(agent, 0)]
                && sent == [Confirmation(m.value), QuestionText(old(BuiltItems(catalogue, m.value)), 0, ch.prefix)]
              else
                conv.userState == old(conv.userState) && sent == [NoMatch]
    // a finished conversation ignores the message
    ensures sender in old(conv.userState) && old(conv.userState[sender]).Completed? ==>
              conv.userState == old(conv.userState) && sent == []
    // an answer is recorded and the next question, or the end, follows
    ensures sender in old(conv.userState) && old(conv.userState[sender]).Asking? ==>
              var agent := old(conv.userState[sender]).agent;
              var reply := ReplyAfterAnswer(old(agent.questions.items), old(agent.currentQuestion), ch);
              && agent.responses == old(agent.responses) + [body]
              && agent.currentQuestion == Advance(old(agent.currentQuestion), |old(agent.questions.items)|).0
              && agent.questions == old(agent.questions) && agent.questions.items == old(agent.questions.items)
              && (SignalsCompletion(reply) ==>
                    && conv.userState == old(conv.userState)[sender := Completed(agent, old(conv.userState[sender]).question)]
                    && sent == AckMessages(ch) + [reply, NextSteps])
              && (!SignalsCompletion(reply) ==>
                    && conv.userState == old(conv.userState)[sender := Asking(agent, agent.currentQuestion)]
                    && sent == AckMessages(ch) + [reply])
  {
    if sender !in conv.userState {
      conv.userState := conv.userState[sender := AwaitingTitle];
      sent := [HumanTouch(Variations, Greeting, ch.pick), JobRequest];
      return;
    }
    match conv.userState[sender]
    case AwaitingTitle =>
      var m := MatchJobTitle(titles, body);
      if m.Some? && m.value != [] {
        sent := StartQuestions(conv, catalogue, sender, m.value, ch);
      } else {
        sent := [NoMatch];
      }
    case Completed(_, _) =>
      sent := [];
    case Asking(agent, question) =>
      sent := Answer(conv, agent, question, sender, body, ch);
  }

  /** A fresh agent for `job` and its question 0. */
  method NewAgent(catalogue: map<string, QuestionList>, job: string, prefix: nat)
    returns (agent: JobScreeningAgent, question: string)
    requires prefix <= |Prefixes|
    modifies ListOf(catalogue, Some(job))
    ensures fresh(agent) && agent.jobTitle == job && agent.currentQuestion == 0 && agent.responses == []
    ensures agent.questions.items == old(BuiltItems(catalogue, job))
    ensures job in catalogue ==> agent.questions == catalogue[job]
    ensures job !in catalogue ==> fresh(agent.questions)
    ensures question == QuestionText(old(BuiltItems(catalogue, job)), 0, prefix)
  {
    ghost var items := BuiltItems(catalogue, job);
    agent := new JobScreeningAgent(job, catalogue, []);
    assert agent.questions.items == items;
    question := agent.GetQuestion(prefix);
  }

  /** The 'ask_job_title' step once the title names catalogue key `job`. */
  method StartQuestions(conv: Conversations, catalogue: map<string, QuestionList>, sender: string, job: string, ch: Choices)
    returns (sent: seq<string>)
    requires ValidChoices(ch)
    modifies conv, ListOf(catalogue, Some(job))
    ensures sender in conv.userState && conv.userState[sender].Asking?
    ensures var agent := conv.userState[sender].agent;
            && fresh(agent) && agent.jobTitle == job && agent.currentQuestion == 0 && agent.responses == []
            && agent.questions.items == old(BuiltItems(catalogue, job))
            && (job in catalogue ==> agent.questions == catalogue[job])
            && conv.userState == old(conv.userState)[sender := Asking(agent, 0)]
            && sent == [Confirmation(job), QuestionText(old(BuiltItems(catalogue, job)), 0, ch.prefix)]
  {
    var agent, question := NewAgent(catalogue, job, ch.prefix);
    sent := [Confirmation(job), question];
    conv.userState := conv.userState[sender := Asking(agent, 0)];
    conv.userState := conv.userState[sender := Asking(agent, agent.currentQuestion)];
  }

  /** The 'asking_questions' step for an agent stored with index `question`. */
  method Answer(conv: Conversations, agent: JobScreeningAgent, question: nat, sender: string, body: string, ch: Choices)
    returns (sent: seq<string>)
    requires ValidChoices(ch)
    modifies conv, agent
    ensures var reply := ReplyAfterAnswer(old(agent.questions.items), old(agent.currentQuestion), ch);
            && agent.responses == old(agent.responses) + [body]
            && agent.currentQuestion == Advance(old(agent.currentQuestion), |old(agent.questions.items)|).0
            && agent.questions == old(agent.questions) && agent.questions.items == old(agent.questions.items)
            && (SignalsCompletion(reply) ==>
                  && conv.userState == old(conv.userState)[sender := Completed(agent, question)]
                  && sent == AckMessages(ch) + [reply, NextSteps])
            && (!SignalsCompletion(reply) ==>
                  && conv.userState == old(conv.userState)[sender := Asking(agent, agent.currentQuestion)]
                  && sent == AckMessages(ch) + [reply])
  {
    sent := AckMessages(ch);
    var reply := Run(agent, body, ch);
    if SignalsCompletion(reply) {
      sent := sent + [reply, NextSteps];
      conv.userState := conv.userState[sender := Completed(agent, question)];
    } else {
      conv.userState := conv.userState[sender := Asking(agent, agent.currentQuestion)];
      sent := sent + [reply];
    }
  }

  /** As written, the second completion variant does not end the
      conversation: after the last answer the state stays 'asking_questions'. */
  lemma LastAnswerCanLeaveQuestionsOpen(items: seq<Question>, prefix: nat, ack: Option<nat>)
    requires items != [] && prefix <= |Prefixes| && (ack.Some? ==> ack.value < AckCount)
    ensures ReplyAfterAnswer(items, |items| - 1, Choices(1, prefix, ack)) == ThanksSoMuch
    ensures !SignalsCompletion(ReplyAfterAnswer(items, |items| - 1, Choices(1, prefix, ack)))
  {
    ContainsItself(CompletionMessage);
    ThanksSoMuchLacksThankYou();
  }

  /** With the intended test, whenever `run` reports the end its reply is
      recognised as the end, whatever variant was picked. */
  lemma EndIsRecognised(items: seq<Question>, c: nat, ch: Choices)
    requires ValidChoices(ch) && Advance(c, |items|).1
    ensures IsCompletionReply(CompletionOptions, ReplyAfterAnswer(items, c, ch))
  {
    CompletionAlwaysRecognised(Variations, ch.pick);
  }
}
