/** The job Q&A SMS bots of openai_db.py and openai_app.py: a per-number
    job context, a one-slot-per-user conversation memory, and the chat
    messages sent to the model. The model's answer is a parameter (`None`
    when the call raises). */
module JobQa {
  import opened Text

  datatype ChatMessage = ChatMessage(role: string, content: string)

  const SystemMessage := ChatMessage("system", "You are a helpful recruiter bot.")
  const Apology := "Sorry, I'm having trouble processing your request right now."

  /** The instruction paragraphs of openai_db.py and openai_app.py. */
  const DbTask := "Based on the candidate's message, respond with relevant information. If the message mentions:\n"
    + "- Salary \U{2192} return salary info only.\n- Location \U{2192} return job location only.\n"
    + "- Skills or requirements \U{2192} return only skills.\n"
    + "If the query is general (e.g. \"am I eligible?\" or \"tell me more\"), give a helpful summary based on the job description.\n\n"
    + "Keep your response brief and on-point, and do not repeat the job description unless explicitly asked.\n"

  const AppTask := "Based on the candidate's message, only respond with relevant information that is explicitly or implicitly asked.\n"
    + "If the message mentions:\n"
    + "- Salary \U{2192} return salary info only.\n- Location \U{2192} return job location only.\n"
    + "- Skills or requirements \U{2192} return only skills.\n"
    + "If the query is general (e.g. \"am I eligible?\" or \"tell me more\"), give a helpful summary.\n\n"
    + "Do not list everything unless asked. Keep your response brief and on-point.\n"

  /** The content of the current user message, around the file's `task`
      paragraph. */
  function Prompt(task: string, jobDesc: string, candidateMsg: string): string
  {
    "\nJob Description:\n" + jobDesc + "\n\nCandidate Message:\n" + candidateMsg + "\n\nYour task:\n" + task
  }

  /** The module-level `checkpoint_memory`: per user, the last reply and
      the message it answered. */
  class Memory {
    var checkpoint: map<string, (string, string)>

    constructor ()
      ensures checkpoint == map[]
    {
      checkpoint := map[];
    }
  }

  /** `ask_openai(user, candidate_msg, job_desc)` with the model answering
      `completion`: the messages sent and the reply. */
  method AskOpenai(mem: Memory, task: string, user: string, candidateMsg: string, jobDesc: string,
                   completion: Option<string>)
    returns (reply: string, messages: seq<ChatMessage>)
    modifies mem
    // system first, the remembered pair if any, the current prompt last
    ensures |messages| == if user in old(mem.checkpoint) then 4 else 2
    ensures messages[0] == SystemMessage
    ensures messages[|messages| - 1] == ChatMessage("user", Prompt(task, jobDesc, candidateMsg))
    ensures user in old(mem.checkpoint) ==>
              messages[1] == ChatMessage("user", old(mem.checkpoint[user]).0)
              && messages[2] == ChatMessage("user", old(mem.checkpoint[user]).1)
    // the stripped answer, or the apology when the call raised
    ensures completion.Some? ==> reply == Strip(completion.value)
    ensures completion.None? ==> reply == Apology
    // the user's one slot is overwritten, no other slot changes
    ensures mem.checkpoint == old(mem.checkpoint)[user := (reply, candidateMsg)]
  {
    messages := [SystemMessage];
    if user in mem.checkpoint {
      var (lastReply, lastMsg) := mem.checkpoint[user];
      messages := messages + [ChatMessage("user", lastReply)];
      messages := messages + [ChatMessage("user", lastMsg)];
    }
    messages := messages + [ChatMessage("user", Prompt(task, jobDesc, candidateMsg))];
    if completion.Some? {
      reply := Strip(completion.value);
    } else {
      reply := Apology;
    }
    mem.checkpoint := mem.checkpoint[user := (reply, candidateMsg)];
  }

  // ---------------------------------------------------------------------
  // openai_db.py

  const NotFound := "Job description not found."
  const TitleRequest := "Thanks for reaching out! Before we proceed, please provide the job title you are referring to."
  const NoJob := "Sorry, I couldn't find a matching job for your query. Please mention a valid job title."

  function Acknowledge(title: string): string
  {
    "Great! You've mentioned " + title + ". How can I help you with this job description?"
  }

  /** `get_job_description`: the row whose title equals the lowercased
      title, or the not-found text. The table maps titles to descriptions. */
  function GetJobDescription(jobs: map<string, string>, title: string): (r: string)
    ensures Lower(title) in jobs ==> r == jobs[Lower(title)]
    ensures Lower(title) !in jobs ==> r == NotFound
    ensures r == [] <==> Lower(title) in jobs && jobs[Lower(title)] == []
  {
    if Lower(title) in jobs then jobs[Lower(title)] else NotFound
  }

  /** An entry of `user_job_context`. */
  datatype JobContext = WaitingForTitle | Known(title: string, description: string)

  class Contexts {
    var userJobContext: map<string, JobContext>

    constructor ()
      ensures userJobContext == map[]
    {
      userJobContext := map[];
    }
  }

  /** The title step as written: the context and the reply for message
      `msg`, accepting any non-empty lookup result. */
  function TitleStep(jobs: map<string, string>, msg: string): (JobContext, string)
  {
    var title := Strip(msg);
    var desc := GetJobDescription(jobs, title);
    if desc != [] then (Known(title, desc), Acknowledge(title)) else (WaitingForTitle, NoJob)
  }

  /** As written, a title is refused only when its row holds an empty
      description; a title with no row is accepted with the not-found text
      as its description. */
  lemma TitleStepRefusesOnlyEmptyRows(jobs: map<string, string>, msg: string)
    ensures TitleStep(jobs, msg).0.WaitingForTitle?
            <==> Lower(Strip(msg)) in jobs && jobs[Lower(Strip(msg))] == []
    ensures Lower(Strip(msg)) !in jobs ==> TitleStep(jobs, msg) == (Known(Strip(msg), NotFound), Acknowledge(Strip(msg)))
  {
    assert NotFound != [];
  }

  /** With an empty table, every message is accepted as a job title. */
  lemma EveryTitleAcceptedWithoutRows(msg: string)
    ensures TitleStep(map[], msg) == (Known(Strip(msg), NotFound), Acknowledge(Strip(msg)))
  {
    TitleStepRefusesOnlyEmptyRows(map[], msg);
  }

  /** The lookup with the missing row kept apart from the description. */
  function FindJobDescription(jobs: map<string, string>, title: string): (r: Option<string>)
    ensures r.Some? <==> Lower(title) in jobs
    ensures r.Some? ==> r.value == jobs[Lower(title)]
    ensures r.Some? ==> r.value == GetJobDescription(jobs, title)
    ensures r.None? ==> GetJobDescription(jobs, title) == NotFound
  {
    if Lower(title) in jobs then Some(jobs[Lower(title)]) else None
  }

  /** The title step as intended: only a title with a non-empty row is
      accepted. */
  function TitleStepCorrected(jobs: map<string, string>, msg: string): (r: (JobContext, string))
    ensures r.0.Known? <==> Lower(Strip(msg)) in jobs && jobs[Lower(Strip(msg))] != []
    ensures r.0.Known? ==> r.0 == Known(Strip(msg), jobs[Lower(Strip(msg))]) && r.1 == Acknowledge(Strip(msg))
    ensures r.0.WaitingForTitle? ==> r.1 == NoJob
  {
    var title := Strip(msg);
    match FindJobDescription(jobs, title)
    case Some(desc) => if desc != [] then (Known(title, desc), Acknowledge(title)) else (WaitingForTitle, NoJob)
    case None => (WaitingForTitle, NoJob)
  }

  /** Where a row exists the two title steps agree. */
  lemma CorrectedAgreesOnKnownTitles(jobs: map<string, string>, msg: string)
    requires Lower(Strip(msg)) in jobs
    ensures TitleStepCorrected(jobs, msg) == TitleStep(jobs, msg)
  {
  }

  /** `sms_reply` of openai_db.py for `msg` from `sender`; `completion` is
      the model's answer if it is asked. Returns the reply and the messages
      sent to the model (none unless asked). */
  method DbSmsReply(ctx: Contexts, mem: Memory, jobs: map<string, string>, sender: string, msg: string,
                    completion: Option<string>)
    returns (reply: string, messages: seq<ChatMessage>)
    modifies ctx, mem
    ensures sender !in old(ctx.userJobContext) ==>
              && ctx.userJobContext == old(ctx.userJobContext)[sender := WaitingForTitle]
              && reply == TitleRequest && messages == [] && mem.checkpoint == old(mem.checkpoint)
    ensures sender in old(ctx.userJobContext) && old(ctx.userJobContext[sender]).WaitingForTitle? ==>
              var step := TitleStep(jobs, msg);
              && ctx.userJobContext == old(ctx.userJobContext)[sender := step.0]
              && reply == step.1 && messages == [] && mem.checkpoint == old(mem.checkpoint)
    ensures sender in old(ctx.userJobContext) && old(ctx.userJobContext[sender]).Known? ==>
              && ctx.userJobContext == old(ctx.userJobContext)
              && |messages| == (if sender in old(mem.checkpoint) then 4 else 2)
              && messages[|messages| - 1]
                 == ChatMessage("user", Prompt(DbTask, old(ctx.userJobContext[sender]).description, msg))
              && mem.checkpoint == old(mem.checkpoint)[sender := (reply, msg)]
              && reply == (if completion.Some? then Strip(completion.value) else Apology)
  {
    if sender !in ctx.userJobContext {
      ctx.userJobContext := ctx.userJobContext[sender := WaitingForTitle];
      return TitleRequest, [];
    }
    match ctx.userJobContext[sender]
    case WaitingForTitle =>
      var title := Strip(msg);
      var desc := GetJobDescription(jobs, title);
      if desc != [] {
        ctx.userJobContext := ctx.userJobContext[sender := Known(title, desc)];
        reply := Acknowledge(title);
      } else {
        reply := NoJob;
      }
      messages := [];
    case Known(_, desc) =>
      reply, messages := AskOpenai(mem, DbTask, sender, msg, desc, completion);
  }

  // ---------------------------------------------------------------------
  // openai_app.py

  const AppNoJob := "Sorry, I couldn't find a matching job for your query. Please mention the job title."

  /** `sms_reply` of openai_app.py, where `jobDesc` is the module's job
      description text: every message is asked about it when it is
      non-empty. */
  method AppSmsReply(mem: Memory, jobDesc: string, sender: string, msg: string, completion: Option<string>)
    returns (reply: string, messages: seq<ChatMessage>)
    modifies mem
    ensures jobDesc == [] ==> reply == AppNoJob && messages == [] && mem.checkpoint == old(mem.checkpoint)
    ensures jobDesc != [] ==>
              && |messages| == (if sender in old(mem.checkpoint) then 4 else 2)
              && messages[|messages| - 1] == ChatMessage("user", Prompt(AppTask, jobDesc, msg))
              && mem.checkpoint == old(mem.checkpoint)[sender := (reply, msg)]
              && reply == (if completion.Some? then Strip(completion.value) else Apology)
  {
    if jobDesc != [] {
      reply, messages := AskOpenai(mem, AppTask, sender, msg, jobDesc, completion);
    } else {
      reply, messages := AppNoJob, [];
    }
  }
}
