# Recruiting automation: verified model of the deterministic core

The repository automates a recruiting agency's intake. It has four parts:

- **Intake scripts.** `multiple_users.py`, `full_automation.py` and `gmail_extractor.py` read "New application" e-mails from Gmail. They extract the candidate's name, the job title and the state code, and save the résumé attachment. They then find the candidate and the job in Loxo, have an LLM score the résumé, and tag and move the candidate according to the score.
- **Screening chatbots.** `lang_graph_sms.py`, `lang_graph_wa.py` and `lang_graph_whatsapp.py` ask a candidate a fixed list of questions over Twilio. They keep each conversation in a per-number state machine.
- **Job Q&A bots.** `openai_db.py` and `openai_app.py` answer a candidate's questions about a job over SMS. They keep a per-number job context and a one-slot conversation memory.
- **Recording-summary pipeline.** `pipeline.py` with its ledger `db.py` summarises interview recordings into the candidates' descriptions. It processes each event at most once.

This project models the deterministic logic under the HTTP calls, and proves what that logic promises. Every external service is a parameter of the model:

- Gmail, Loxo, Twilio and OpenAI;
- the PDF reader, BeautifulSoup and `json.loads`;
- the random choices.

The model has one module per concern:

| module | models |
|---|---|
| `Text` | the slice of Python's `str` API the scripts use |
| `Base64Url` | `_b64url_to_bytes`: the padding, and the non-strict decoder of section 5 of RFC 4648 |
| `Mime` | the Gmail part tree, the stack walk `_walk_parts`, `_get_subject`, `_get_html_and_text` |
| `Application` | `_parse_name_and_title`, in the 3-tuple (multiple_users.py) and 2-tuple variants |
| `Attachments` | `_safe_filename`, `_unique_path`, `_download_first_resume_attachment`; the file system is a map |
| `Fetch` | `fetch_application` (gmail_extractor.py) |
| `Email` | `extract_email`, as the backtracking regex matcher finds the address |
| `Evaluator` | fence cleanup, the fallback records, `get_job_prompt` |
| `Intake` | the score cutoff, `normalize_phone_number`, the WhatsApp address, the Loxo lookups, the multipart bodies |
| `Cycle` | one cycle of multiple_users.py's main loop, with its two counters |
| `Screening` | what the three chatbots share: the question lists, `JobScreeningAgent`, the variations, the title match, the score extractors |
| `ScreeningSms`, `ScreeningWa`, `ScreeningWhatsapp` | the three webhooks |
| `JobQa` | `ask_openai` and `sms_reply` of both Q&A bots |
| `Ledger`, `Pipeline` | `db.py` and `run_pipeline_summary` |

Code that changes state is imperative Dafny:

- The SQLite tables are objects whose `map` fields the methods rewrite: `DatabaseManager`, `ProcessedEvents`, `Memory`, `Contexts`, `Conversations`, `People`, `FileStore`.
- The agent is a class whose fields `run` updates.
- Each list in `job_questions` is a `QuestionList` object. Every `JobScreeningAgent` constructor extends the very list stored in the catalogue, with no copy, as the source does.
- The stack walk, the path search, the score scans, the cycle loop and the pipeline loop are `while` loops. Each is proved against a function that specifies it.

## Model

| member | source | states |
|---|---|---|
| Base64Url.Padded | multiple_users.py:78-80 | the padded string is a multiple of four long, extends the input, and adds fewer than four characters, all '=' |
| Base64Url.B64UrlToBytes | multiple_users.py:75-81 | empty input gives empty bytes; any non-ASCII character is rejected |
| Base64Url.Encode | full_automation.py:66-72 | the unpadded URL-safe encoding Gmail sends: no '=', never 1 modulo 4 long, and a multiple of 4 exactly when the byte count is a multiple of 3 |
| Base64Url.DecodeEncoded | full_automation.py:66-72 | the decoder loop, run over an encoding with the padding the helper adds, appends exactly the encoded bytes |
| Base64Url.B64UrlRoundTrip | full_automation.py:66-72 | padding and then decoding recovers every byte string from its unpadded encoding |
| Base64Url.LoneCharacterRejected | gmail_extractor.py:34-40 | a single data character is an error, whatever padding is appended |
| Mime.PushChildren | multiple_users.py:88-89 | one step pushes the children onto the stack in list order |
| Mime.Walk | multiple_users.py:83-89 | the explicit-stack loop yields exactly the sequence the stack specification gives |
| Mime.WalkStackPop | multiple_users.py:85-89 | one pop: the top part comes out, then the walk continues with its children pushed |
| Mime.WalkIsPreorder | multiple_users.py:83-89 | the walk is a root-first traversal in which later siblings come before earlier ones |
| Mime.WalkStackNodes | multiple_users.py:83-89 | the walk of a stack yields, as a multiset, exactly the nodes of the trees on it |
| Mime.WalkVisitsEachNodeOnce | multiple_users.py:83-89 | the root comes first, and every node of the tree is yielded exactly once |
| Mime.GetSubject | gmail_extractor.py:50-54 | the value of the first header named exactly "Subject", or "" when there is none |
| Mime.FirstBody | multiple_users.py:97-112 | None exactly when no part of the type has a decodable body; otherwise the body of the first such part |
| Mime.GetHtmlAndText | multiple_users.py:97-112 | the loop returns the first HTML body and the first plain-text body in walk order |
| Mime.BodyFoundIffSomePartHasOne | multiple_users.py:97-112 | a body is found exactly when some node of the tree has a body of that type that decodes |
| Application.FirstAppliedLine | multiple_users.py:117-118 | None exactly when no line ends in "applied" (case-insensitively); otherwise the index of the first such line |
| Application.FirstAppliedLineIsUnique | multiple_users.py:117-125 | only one line is the first "applied" line |
| Application.ParseLines | multiple_users.py:115-126 | no name exactly when no line ends in "applied"; otherwise the name and title are read at the first such line; no name means no title |
| Application.StateCodeByScan | multiple_users.py:131-133 | the regex's comma test, read from the right of the subject |
| Application.StateCodeOf | multiple_users.py:131-133 | a code exactly when the stripped subject ends in ", XY"; it is the last two letters, upper-cased |
| Application.StateCode | multiple_users.py:128-133 | a code exactly when the stripped subject ends with a comma, optional spaces and two ASCII letters; the code is those letters upper-cased |
| Application.TitleFrom | multiple_users.py:153-155 | the leftmost match of "New application for\s*(.*?)(?:,\|$)" from a position, with its group stripped; None exactly when no position matches |
| Application.TitleFromStep | multiple_users.py:153-155 | no match at a position: the leftmost match from the next position is the leftmost match from this one |
| Application.SubjectTitle | multiple_users.py:151-155 | None exactly when the subject has no match; otherwise the stripped group of the leftmost match |
| Application.NameAndTitle | multiple_users.py:135-157 | HTML lines first, then plain-text lines, then the subject; a branch is taken only if its name or title is non-empty |
| Application.ParseNameAndTitle | full_automation.py:105-135 | the 2-tuple variant: without a name the title is the subject's; with a name the branch was accepted |
| Application.ParseNameTitleAndState | multiple_users.py:114-157 | the 3-tuple variant: every branch returns the subject's state code |
| Attachments.Sanitize | multiple_users.py:161 | same length; each unsafe character becomes '_', each safe one stays |
| Attachments.SafeFilename | multiple_users.py:159-162 | the sanitised name stripped of whitespace, or "attachment" when nothing is left; the result is non-empty, uses only `[A-Za-z0-9.\- _]`, and neither starts nor ends with a space |
| Attachments.SafeFilenameIdempotent | gmail_extractor.py:105-108 | sanitising a sanitised name changes nothing |
| Attachments.SplitExt | multiple_users.py:165 | `os.path.splitext`: the two parts concatenate back to the path; the extension is a final dot-suffix with no further dot or slash, after a non-dot of the last component; no extension only when every dot of the last component has nothing but dots before it |
| Attachments.Join | multiple_users.py:166 | `os.path.join` ends with the joined name; an absolute name replaces the folder, any other name lands under the folder, adding at most one separator |
| Attachments.JoinInjective | multiple_users.py:164-171 | joining two names of the same kind onto one directory gives different paths for different names |
| Attachments.NumberedNameShape | multiple_users.py:168-169 | a numbered name is longer than the plain one and keeps whether it is absolute |
| Attachments.NumberedNamesDiffer | multiple_users.py:168-169 | different counters give different "base (i)ext" names |
| Attachments.CandidatesDistinct | multiple_users.py:164-171 | all the paths the loop tries are pairwise distinct |
| Attachments.TriedGrows | multiple_users.py:168-170 | each taken path tried leaves fewer taken paths untried, so the loop ends |
| Attachments.UniquePath | gmail_extractor.py:110-117 | the result is not an existing path; it is the first free one among the plain name and the numbered names in order; a free plain name is returned as is |
| Attachments.FirstResumePart | gmail_extractor.py:124-134 | None exactly when no part has a non-empty .pdf/.doc/.docx filename (case-insensitive) and an attachment id; otherwise the first such part |
| Attachments.DownloadFirstResume | gmail_extractor.py:119-156 | no résumé part, or a decode failure, writes nothing; otherwise exactly one new file is written, holding the decoded bytes, at the unique path or at the temp-file path |
| Fetch.FetchApplication | gmail_extractor.py:172-205 | no message gives the all-None record and writes nothing; otherwise the record holds the parsed name and title, the subject and the message id; without a résumé part both résumé fields are None and nothing is written; a résumé whose data does not decode raises and writes nothing; otherwise exactly one new file holds the decoded bytes, at the first free path in the download folder or at the temporary name |
| Email.RunEnd | multiple_users.py:585 | a greedy character-class run: every character inside belongs to the class, and the one after it does not |
| Email.LastDot | multiple_users.py:585 | the domain run gives back characters until a dot is followed by two letters: the greatest such position |
| Email.FirstMatch | multiple_users.py:583-595 | the leftmost position at which the matcher succeeds, and the text it matches there |
| Email.MatchEndIsEmail | multiple_users.py:585 | what the matcher finds is an address of the pattern's shape |
| Email.EmailAtIsMatched | multiple_users.py:585 | any address starting at a position is covered by the match there |
| Email.MatchEndIffEmail | multiple_users.py:585 | a match starts at a position exactly when an address starts there, and it is the longest one |
| Email.ExtractEmailNoneIffNoAddress | full_automation.py:462-473 | None exactly when the text contains no address |
| Email.ExtractEmailIsLeftmostLongest | full_automation.py:462-473 | otherwise the leftmost address, taken longest |
| Email.ExtractEmailOfAddress | multiple_users.py:583-595 | a text that is one address comes back whole |
| Evaluator.RemoveFenceLeaves | job_wise.py:116-120 | removing every "```" leaves no three backticks in a row, and leaves the leading backticks modulo 3 |
| Evaluator.CleanFencesRemovesFences | job_wise.py:116-120 | a reply starting with a fence comes out fence-free; any other reply is passed through unchanged |
| Evaluator.Evaluate | job_wise.py:60-148 | an API failure gives score 0, "ERROR", no strengths and the one "API Error" concern; a parse failure gives the fixed record; otherwise the parsed cleaned reply |
| Evaluator.GetJobPrompt | job_wise.py:35-46 | the prompt of the first rubric whose name contains the title case-insensitively, or the general prompt when none does |
| Evaluator.GetJobPromptNeverNone | job_wise.py:64-67 | with every prompt present the lookup never yields None, so the ValueError branch cannot be reached |
| Evaluator.EmptyTitlePicksFirst | job_wise.py:35-46 | an empty title picks the first rubric |
| Intake.Decide | multiple_users.py:795-800 | accepted ("AI Accepted", 760300) exactly when the score exceeds 60; otherwise ("AI Rejected", 760312) |
| Intake.PronounAgreesWithTag | full_automation.py:555 | the pronoun, the tag (full_automation.py:588-591) and the multiple_users.py decision always agree |
| Intake.NormalizePhone | multiple_users.py:558-560 | the result is all digits and no longer than the input; an input without digits gives "" |
| Intake.NormalizePhoneConcat | multiple_users.py:558-560 | normalising distributes over concatenation; with NormalizePhone's contract and NormalizeDigits, every digit is kept in place and every non-digit is dropped |
| Intake.NormalizeDigits | multiple_users.py:558-560 | a string of digits is unchanged |
| Intake.NormalizePhoneIdempotent | multiple_users.py:558-560 | normalising twice is normalising once |
| Intake.WhatsAppAddressShape | full_automation.py:451 | the address is "whatsapp:" plus the number with every '-' and ' ' removed; no digit is lost |
| Intake.SearchPerson | full_automation.py:258-277 | None exactly when no person has an e-mail equal to the expected one; otherwise the first such person, with the first phone |
| Intake.FindJobByTitle | full_automation.py:297-305 | None exactly when no job title contains the query case-insensitively; otherwise the first such job |
| Intake.FirstStop | multiple_users.py:415-422 | the first job at which the loop returns, or None when it runs out |
| Intake.FindJobByTitleAndState | multiple_users.py:399-427 | no jobs, or a None title, end the search; a found job matches the title and the state code and is the first to match both; NotFound means none matches both |
| Intake.EmptyStateIsTitleSearch | multiple_users.py:399-427 | with an empty state code the search agrees with full_automation.py's title search |
| Intake.FieldPartsHoldFields | full_automation.py:600 | every field's part lies in the body, which opens with the delimiter |
| Intake.MultipartFraming | full_automation.py:600-606 | the body opens with the delimiter, closes with the delimiter and "--", and holds every field (section 5.1.1 of RFC 2046) |
| Intake.PersonUpdateIsMultipart | multiple_users.py:808 | the person PUT is exactly the multipart framing of its five fields |
| Intake.PersonEventIsMultipart | multiple_users.py:823 | the person-event POST is exactly the multipart framing of its three fields |
| Intake.JobTagIsMultipart | full_automation.py:600 | the tag PUT is exactly the multipart framing of the job and the tag |
| Intake.JobDescriptionIsMultipart | lang_graph_sms.py:521 | the description PUT is exactly the multipart framing of the job and the description |
| Cycle.ProcessResult | multiple_users.py:665-849 | a missing résumé raises; a processed result was decided by the cutoff, and its update and event carry that decision; the new description extends the old one |
| Cycle.Outcomes | multiple_users.py:664-849 | one outcome per result, in order; every processed one carries a decision from the cutoff and well-framed update and event bodies |
| Cycle.ProcessedAreDecided | multiple_users.py:664-849 | every processed result of a fetched list carries a decision from the cutoff and well-framed update and event bodies |
| Cycle.RunCycle | multiple_users.py:647-852 | the counters add up to the number of results, and the successes are exactly the submissions |
| Cycle.SubmissionsStep | multiple_users.py:843 | each iteration adds its submission exactly when it succeeded |
| Cycle.ProcessedIsDecided | multiple_users.py:795-800 | a processed result's tag and activity are the cutoff's |
| Cycle.SubmissionsAreDecided | multiple_users.py:664-852 | every submitted application was decided by the cutoff |
| Cycle.SubmissionsBounded | multiple_users.py:664-852 | at most one submission per result |
| Screening.QuestionList.constructor | lang_graph_sms.py:220-224 | a question list holds the given items |
| Screening.JobScreeningAgent.constructor | lang_graph_sms.py:220-226 | the agent's list is the catalogue's own, extended in place by the three fixed questions; an unknown title gets a fresh list of those three |
| Screening.JobScreeningAgent.GetQuestion | lang_graph_wa.py:108-129 | the question as `QuestionText` gives it |
| Screening.QuestionTextShape | lang_graph_wa.py:108-129 | the plain text without a prefix; the prefix and the lower-cased text with one; the completion message past the end |
| Screening.JobScreeningAgent.MoveToNextQuestion | lang_graph_sms.py:258-264 | signals the end exactly when the index is at the last question, and otherwise advances; the index never passes the last question |
| Screening.JobScreeningAgent.Record | lang_graph_sms.py:268 | the answer is appended to the responses, and nothing else changes |
| Screening.AnswersToComplete | lang_graph_whatsapp.py:53-71 | from index 0 with n questions, the index after k answers is min(k, n-1), and the end is signalled from the n-th answer on |
| Screening.HumanTouch | lang_graph_wa.py:78-98 | the message itself when no key occurs in it; otherwise one of the options of the first key that occurs |
| Screening.CompletionMessageSignals | lang_graph_whatsapp.py:67 | the completion message contains "Thank you" |
| Screening.CompletionAlwaysRecognised | lang_graph_wa.py:81-85 | every variant of the completion message is recognised as the end by the intended test |
| Screening.ThanksSoMuchLacksThankYou | lang_graph_wa.py:83 | the second completion variant does not contain "Thank you" |
| Screening.MatchJobTitle | lang_graph_wa.py:254-261 | None exactly when the message names no key; otherwise the first key, in dict order, whose lower-case contains the stripped, lower-cased message |
| Screening.BlankMessagePicksFirst | lang_graph_wa.py:254-261 | a blank message names every key, so the first is chosen |
| Screening.ExtractScores | lang_graph_sms.py:319-357 | the line loop computes the line-scan specification |
| Screening.LastWith | lang_graph_sms.py:319-357 | the last line with a prefix, or None exactly when no line has it |
| Screening.PrefixesExclusive | lang_graph_sms.py:333-355 | a line starts with at most one of the five prefixes |
| Screening.ScanLinesTakesLastMatch | lang_graph_sms.py:319-357 | each score is read from the last line with its prefix (0 when none parses); the feedback is the last "Summary:" line's text, or "" |
| Screening.StrictAgreesWithGuarded | lang_graph_whatsapp.py:102-128 | the unguarded extractor raises exactly when some score line does not hold an integer, and otherwise agrees with the guarded one |
| Screening.StrictFailureSticks | lang_graph_whatsapp.py:102-128 | once a line raises, the whole extraction raises |
| Screening.ExtractScoresStrict | lang_graph_whatsapp.py:102-128 | the loop computes the unguarded specification, None standing for the escaping ValueError |
| ScreeningSms.SaveKeepsValid | lang_graph_sms.py:107-124 | saving a row that names its job, or is at the title step, keeps every row readable |
| ScreeningSms.DatabaseManager.constructor | lang_graph_sms.py:48-84 | the tables keep the rows of an earlier run |
| ScreeningSms.DatabaseManager.GetUserState | lang_graph_sms.py:86-105 | the saved row exactly when one exists for the number; in a valid table a row read past the title step names its job |
| ScreeningSms.DatabaseManager.SaveUserState | lang_graph_sms.py:107-124 | replaces the number's row; no other row and no candidate changes |
| ScreeningSms.DatabaseManager.DeleteUserState | lang_graph_sms.py:126-131 | removes only the number's row |
| ScreeningSms.DatabaseManager.GetCandidateInfo | lang_graph_sms.py:133-153 | found exactly when the raw number or the number without "whatsapp:" has a row, and it is that row |
| ScreeningSms.DatabaseManager.AddCandidate | lang_graph_sms.py:155-164 | replaces the number's candidate row and leaves the conversations alone |
| ScreeningSms.Run | lang_graph_sms.py:266-288 | records the answer, advances the cursor, saves the row with the new index, and replies with the next question or a completion variant |
| ScreeningSms.WhatsappReply | lang_graph_sms.py:360-544 | the whole step machine: unknown numbers, the title step, answers and completed conversations, with the messages sent; only the catalogue list of the title being screened is extended |
| ScreeningSms.Greet | lang_graph_sms.py:375-394 | an unregistered number gets the refusal and no row; a registered one gets the greeting, the job request and an ask_job_title row |
| ScreeningSms.ChooseJob | lang_graph_sms.py:397-433 | a matched title stores asking_questions at index 0 with no responses, extends only that title's list, and asks the first question of the extended list; no match changes nothing |
| ScreeningSms.FirstQuestion | lang_graph_sms.py:409-420 | the new agent's first question, its list extended in the catalogue |
| ScreeningSms.StartQuestions | lang_graph_sms.py:407-428 | the row saved for the matched title, the confirmation followed by the first question of the extended list; only that title's list changes |
| ScreeningSms.Answer | lang_graph_sms.py:441-542 | the agent is rebuilt, extending the shared list of its title (and no other) once more; the row saved and the messages are those of the answering step over the extended list |
| ScreeningSms.RunEvaluation | lang_graph_sms.py:476-534 | without a candidate row, or with a JSON-null description that makes the append raise, nothing is sent and the row stays; otherwise the PUT carries the description with the scores appended, and the row is deleted |
| ScreeningSms.AddCandidateRoute | lang_graph_sms.py:548-565 | 400 and no write exactly when a required field is missing; otherwise the candidate row is stored and 200 is returned |
| ScreeningSms.RebuiltNeverFinishes | lang_graph_sms.py:223-224 | as written, each message rebuilds the agent and extends the list by three, and the end is never signalled |
| ScreeningSms.AnswerStepIsRebuilt | lang_graph_sms.py:441-448 | one answering step, over the list the rebuilt agent extends, takes the list length and the stored index from `Rebuilt(k, j)` to `Rebuilt(k, j + 1)` without signalling the end |
| ScreeningSms.ThirdAnswerDoesNotFinish | lang_graph_sms.py:443 | three questions: a kept agent finishes on the third answer, the rebuilt one does not |
| ScreeningWa.Conversations.constructor | lang_graph_wa.py:48 | no conversation at start |
| ScreeningWa.Run | lang_graph_wa.py:146-156 | records the answer, advances the cursor, and replies with the next question or a completion variant |
| ScreeningWa.WhatsappReply | lang_graph_wa.py:228-378 | the whole step machine: a first message, the title step (a fresh agent over the catalogue list of the title, extended), answers (the agent keeps its list and advances) and completed conversations, with the messages sent; no other catalogue list changes |
| ScreeningWa.NewAgent | lang_graph_wa.py:264-268 | a fresh agent for the title at question 0, with no responses, holding the catalogue's own list extended with the fixed questions (a fresh list for an unknown title), and the first question of that list |
| ScreeningWa.StartQuestions | lang_graph_wa.py:253-281 | the state becomes asking_questions with the fresh agent at question 0, holding the title's extended catalogue list; the confirmation and the first question of that list are sent |
| ScreeningWa.Answer | lang_graph_wa.py:289-376 | the agent records the answer, advances its index and keeps its list; a reply containing "Thank you" completes the conversation and sends the next steps; any other reply stores the agent's new index |
| ScreeningWa.LastAnswerCanLeaveQuestionsOpen | lang_graph_wa.py:83 | as written, the second completion variant leaves the conversation in asking_questions after the last answer |
| ScreeningWa.EndIsRecognised | lang_graph_wa.py:304 | with the intended test, every end reported by `run` is recognised |
| ScreeningWhatsapp.Conversations.constructor | lang_graph_whatsapp.py:29 | no conversation at start |
| ScreeningWhatsapp.Run | lang_graph_whatsapp.py:61-71 | records the answer, advances the cursor, and replies with the next question or the completion message |
| ScreeningWhatsapp.EndIsSignalled | lang_graph_whatsapp.py:61-71 | whenever the end is signalled the reply is the completion message, and it is recognised |
| ScreeningWhatsapp.WhatsappReply | lang_graph_whatsapp.py:131-190 | an unknown number gets ask_job_title; a matched title installs a fresh agent at question 0 over the title's extended catalogue list and sends its first question; an answer advances the agent, which keeps its list, and continues, or ends and deletes the conversation, or raises in the unguarded extractor; no other catalogue list changes |
| ScreeningWhatsapp.StartQuestions | lang_graph_whatsapp.py:146-164 | a fresh agent for the title at question 0 holding the title's extended catalogue list, and the first question of that list as the reply |
| ScreeningWhatsapp.Answer | lang_graph_whatsapp.py:167-190 | the agent records the answer, advances and keeps its list; the next question keeps the conversation; the end deletes it, unless the extractor raises first |
| ScreeningWhatsapp.CompletesOnLastAnswer | lang_graph_whatsapp.py:61-71 | with n questions, the end is signalled exactly on the n-th answer, and then recognised |
| JobQa.Memory.constructor | openai_db.py:21 | the memory starts empty |
| JobQa.AskOpenai | openai_db.py:40-85 | system first, the remembered pair if any, the current prompt last (2 or 4 messages); the stripped answer or the apology; the user's slot is overwritten |
| JobQa.GetJobDescription | openai_db.py:23-38 | the row for the lower-cased title, or the not-found text; the result is empty exactly when the title's row holds an empty description |
| JobQa.Contexts.constructor | openai_db.py:19 | no context at start |
| JobQa.TitleStepRefusesOnlyEmptyRows | openai_db.py:102-116 | as written, a title is refused only when its row is empty; a title without a row is accepted with the not-found text |
| JobQa.EveryTitleAcceptedWithoutRows | openai_db.py:102-116 | with no rows every message is accepted as a title |
| JobQa.FindJobDescription | openai_db.py:23-38 | the lookup with the missing row kept apart: a found row is what `get_job_description` returns, and a missing one is where it returns the not-found text |
| JobQa.TitleStepCorrected | openai_db.py:102-116 | only a title with a non-empty row is accepted |
| JobQa.CorrectedAgreesOnKnownTitles | openai_db.py:102-116 | where the row exists the two title steps agree |
| JobQa.DbSmsReply | openai_db.py:89-127 | a new number gets the title request; the waiting state runs the title step; a known job asks the model with memory |
| JobQa.AppSmsReply | openai_app.py:132-148 | with the non-empty job text the model is always asked, with 2 or 4 messages, and the user's slot is overwritten |
| Ledger.HasEventIff | db.py:20-26 | an event is found exactly when some row carries it |
| Ledger.HasEventAppend | db.py:28-36 | appending a row adds exactly its event to those found |
| Ledger.ProcessedEvents.constructor | db.py:3 | a database file without the table |
| Ledger.ProcessedEvents.InitDb | db.py:5-18 | creates the table if missing; the rows and the next id stay |
| Ledger.ProcessedEvents.IsEventProcessed | db.py:20-26 | true exactly when some row has the event id |
| Ledger.ProcessedEvents.MarkEventProcessed | db.py:28-36 | appends exactly one row with the next id; the event is then processed and no other event's status changes |
| Ledger.MarkedStaysMarked | db.py:20-36 | once marked, an event stays processed through any later marks |
| Pipeline.People.constructor | pipeline.py:8 | the people's descriptions as given |
| Pipeline.StopIndex | pipeline.py:14-15 | the first iteration at which a stop is requested, or the number of events |
| Pipeline.SummarizeDocument | pipeline.py:27-36 | one document: when the download and the summary succeed, the person's description becomes the text `get_person_details` returns ("" on a failed GET) followed by the heading and the summary, as the step function gives it |
| Pipeline.SummarizeDocuments | pipeline.py:26-36 | the inner loop folds the document step over the event's documents |
| Pipeline.ProcessEvent | pipeline.py:17-39 | one event: counted once, as processed or skipped; the ledger and descriptions as the event step gives them |
| Pipeline.Ticks | pipeline.py:41-42 | the callback's arguments count up by one from 1 |
| Pipeline.ProcessNext | pipeline.py:13-42 | the loop body for one event, then the callback |
| Pipeline.RunPipelineSummary | pipeline.py:8-46 | total is the number of events; the loop runs up to the first stop request, the counters add up, and the callback hears of every finished event |
| Pipeline.ReplayCounts | pipeline.py:8-46 | every event is counted once; the ledger grows by one row per processed event and keeps its old rows |
| Pipeline.RunMarksEvents | pipeline.py:25-39 | after a run every event with documents is in the ledger |
| Pipeline.SettledEventsAreSkipped | pipeline.py:17-24 | events in the ledger or without documents are only counted as skipped |
| Pipeline.SecondRunProcessesNothing | pipeline.py:17-18 | a second run over the same events processes nothing and writes nothing |
| Pipeline.DocsFoldExtends | pipeline.py:26-36 | an event's documents change only that person's description and drop none; when every lookup succeeds and descriptions are plain text, the old text is a prefix of the new one |
| Pipeline.RunExtendsDescriptions | pipeline.py:13-39 | over a whole run no description disappears; when every lookup succeeds and descriptions are plain text, none shrinks |
| Pipeline.FailedLookupDropsDescription | pipeline.py:33-35 | as written, a failed GET in `get_person_details` makes the new description the heading and the summary alone, so the old text is not kept |
| Pipeline.DocStepKeepsText | pipeline.py:33-35 | with the lookup guarded, a step either changes nothing or rewrites only the person's description, which starts with the text of the old one |
| Pipeline.RunKeepsEventsDistinct | pipeline.py:17-39 | the ledger gate never marks an event twice |

## Left out

- Network calls are function-typed parameters or datatype values: Gmail, Loxo, Twilio and OpenAI. The HTTP status codes, headers other than the multipart content type, retries and `raise_for_status` are not modelled.
- Threads, `time.sleep` and `send_delayed_message` are not modelled. The messages a webhook hands over are returned in the order they are handed over.
- lang_graph_wa.py's background `run_evaluation` is not modelled, and neither is its later deletion of the conversation. The completed state it leaves behind is modelled.
- `random` is a `Choices` value: the variation picked, the question prefix and the acknowledgement. It is a nondeterministic choice, not a distribution.
- Library internals are parameters: BeautifulSoup's `get_text` (in Pipeline, `Externals.getText`; in the webhooks and the cycle, the fetched description is itself a parameter), `pdfplumber`/`PyPDF2`, UTF-8 decoding with `errors="ignore"`, and `json.loads`. Scores are integers; floating-point scores from the LLM are not modelled.
- `Text.Lower` and `Text.Upper` fold only ASCII letters. Python's full Unicode case mapping is not modelled; it matters only for non-ASCII titles.
- Cycle.ProcessResult, Cycle.Submit: the résumé file is not deleted after a submission (`os.remove(resume_path)`, multiple_users.py:775-776), since the model has no file store here. A person's name is a string, so a JSON-null name (read at multiple_users.py:373 and tested by `if not person:` at :695) is not modelled; only "" leads to `CandidateNotFound`.
- NormalizePhone keeps only the ASCII digits 0-9, while Python's `\d` (multiple_users.py:560) keeps every Unicode decimal digit, such as "٠٧٧". `Text.ParseInt` likewise reads only ASCII digits, while `int()` (lang_graph_sms.py:336) accepts any Unicode decimal digits. The Unicode digit table is not modelled.
- The strip and split sets at multiple_users.py:120 and 124 are modelled character by character as written (mojibake of •, – and —), not as the characters they were meant to be.
- The evaluation prompts are not modelled: the one job_wise.py sends with a résumé and the ones the screening bots' `evaluate_with_llm` build. The LLM's wording is not modelled either; each answer is a parameter. The job Q&A bots' system message and task prompts and job_wise.py's general prompt are modelled.
- A Python `KeyError` on a malformed record or row is not modelled. Callers are required to pass rows of the shape the code reads.
- ScreeningSms.WhatsappReply: the table invariant `DatabaseManager.Valid()` (every asking_questions row names its job) is a precondition. The webhook itself never writes a row that breaks it. On such a row the source would build the agent with title `None` over a fresh list of the fixed questions (`job_questions.get(None, [])`) and carry on; that case is not modelled.
- ScreeningSms.StartQuestions: the first question is computed before the row is saved, while the source builds the agent after saving. The two touch disjoint state (the table and the question list), so the result is the same.
- The SQLite engine is not modelled: the tables are maps keyed by phone number with replace semantics. Row order of `SELECT` without `ORDER BY` is not modelled.
- Attachments models POSIX `os.path.splitext` and `os.path.join`. The scripts' Windows folder paths (backslashes, drive letters) are not modelled.
- File-system writes are a map from path to contents; `os.makedirs` and file handles are not modelled. `tempfile.mkstemp` is a name that is fresh by precondition.
- JobQa.AppSmsReply: the module-level `job_desc` of openai_app.py is a parameter. With the constant as written it is non-empty, so only the asking branch is taken.
- openai_app.py's `get_job_description` uses an un-imported `sqlite3` and is never called; it is not modelled.
- /add_candidate's JSON with non-string fields is not modelled. Fields are present or missing strings and numbers.
- Pipeline.RunPipelineSummary: the stop request is the loop guard, which is equivalent to the source's check and `break` at the top of each iteration. A `None` person id and a failed PUT are not modelled: the update is applied whenever a summary exists. Whether the GET in `get_person_details` succeeds depends only on the person id (`Externals.personFound`), so one person's lookup cannot succeed for one event and fail for another in the same run.
- `fetch_application` in multiple_users.py:294 (up to 60 messages, Gmail labels) is not modelled beyond the helpers it shares with gmail_extractor.py. The single-message `fetch_application` of gmail_extractor.py:172-205 and full_automation.py:204-235 is `Fetch.FetchApplication`.
- `process_candidate_resume` in multiple_users.py reads the module global `resume_text` that the main block sets (multiple_users.py:678) before the call; `Cycle.Submit` models that call with the text as a parameter. Not modelled: `save_processed_emails`, gmail_extractor.py:237-252 and the module-level test run in job_wise.py.
- app.py, app_aadit.py, send_messgae.py and logging_setup.py are not part of this model. Of recording_auto.py only `get_person_details` is modelled (`Pipeline.PersonDetails`); its other calls are the `Externals`.
- Pipeline.DocsFoldExtends, Pipeline.RunExtendsDescriptions: the old description is a prefix of the new one only when every lookup succeeds and `get_text` leaves the descriptions unchanged. An HTML description is rewritten as its text, and a failed lookup drops it (see Findings).

## Findings

| source | as written | input that shows it | evidently intended | confidence | as-written member | corrected member |
|---|---|---|---|---|---|---|
| lang_graph_sms.py:223-224, 443 | every message in asking_questions rebuilds `JobScreeningAgent`, whose constructor extends the shared `job_questions[title]` list by the three fixed questions again | a job with no questions of its own: after the third answer the list holds 12 questions, the index is 3, and the end is not signalled | the list is extended once, so the end is signalled on the n-th answer | not executed | ScreeningSms.ThirdAnswerDoesNotFinish | Screening.AnswersToComplete |
| lang_graph_wa.py:83, 304 | the end is detected by "Thank you" in the reply, but one completion variant reads "Thanks so much" | variation pick 1 on the last answer: the conversation stays in asking_questions | every completion variant ends the conversation | not executed | ScreeningWa.LastAnswerCanLeaveQuestionsOpen | ScreeningWa.EndIsRecognised |
| openai_db.py:35-38, 107 | the not-found sentinel is a non-empty string, so the `if job_description:` test accepts any title | an empty jobs table and the message "anything": the title is accepted with "Job description not found." as its description | only a title with a stored description is accepted | not executed | JobQa.EveryTitleAcceptedWithoutRows | JobQa.TitleStepCorrected |
| pipeline.py:33-35, recording_auto.py:59-71 | `get_person_details` returns "" when its GET fails, and the PUT then writes `"" + heading + summary` | a stored description "Senior engineer", a 500 on the GET and a summary "Good fit": the description becomes "\n\nInterview Summary:\nGood fit" | a failed lookup leaves the description alone | not executed | Pipeline.FailedLookupDropsDescription | Pipeline.DocStepKeepsText |

The webhooks, `DbSmsReply` and the pipeline model the code as written. The corrected members state the intended behaviour beside them.
