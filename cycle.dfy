/** One cycle of multiple_users.py's main loop: each fetched application is
    matched, evaluated, tagged and moved in Loxo, and counted as exactly one
    of successful or failed. */
module Cycle {
  import opened Text
  import opened Email
  import opened Evaluator
  import opened Intake

  /** A record returned by `fetch_application` (the fields the loop reads). */
  datatype FetchedResult = FetchedResult(
    candidateName: Option<string>,
    jobTitle: Option<string>,
    resumePath: Option<string>,
    messageId: string,
    stateCode: Option<string>)

  /** The outside world one cycle talks to. A `None` or `false` answer is a
      call that raised. */
  datatype Services = Services(
    fileExists: string -> bool,                  // os.path.exists
    pdfText: string -> Option<string>,           // extract_text_from_pdf
    searchPeople: string -> Option<seq<Person>>, // GET people?query=
    smsDelivered: string -> bool,                // twilio messages.create
    personDescription: string -> string,         // GET people/{id}, as text ("" unless 200)
    searchJobs: string -> Option<seq<Job>>,      // GET jobs?query=
    jobDescription: string -> Option<string>,    // retrieve_job_description
    llm: (string, string) -> LlmReply,           // the chat call on (résumé, job description)
    parse: string -> Option<Evaluation>)         // json.loads

  /** Python's f-string rendering of an optional string. */
  function PyStr(o: Option<string>): string
  {
    if o.Some? then o.value else "None"
  }

  /** What a successful application sends to Loxo. */
  datatype Submission = Submission(
    messageId: string,
    personId: string,
    jobId: string,
    score: int,
    decision: Decision,
    description: string,     // the person's description with the evaluation appended
    application: seq<Field>, // the POST to jobs/{id}/apply
    update: string,          // the PUT to people/{id}
    event: string)           // the POST to person_events

  datatype Outcome =
    | Processed(submission: Submission)
    | CandidateNotFound     // counted as failed, `continue`
    | JobNotFound           // counted as failed, `continue`
    | Raised                // any exception, caught and counted as failed

  /** The text appended to the person's description. */
  function EvaluationNote(summary: string, score: int): string
  {
    "\n\nSummary: " + summary + "\n\nOverall Score: " + IntToString(score)
  }

  /** Steps after the job is found: evaluate, decide, build the requests. */
  function Submit(r: FetchedResult, sv: Services, text: string, expected: Option<string>,
                  m: PersonMatch, phone: string, job: Job): Outcome
  {
    match sv.jobDescription(job.id)
    case None => Raised
    case Some(jd) =>
      var ev := Evaluate(sv.llm(text, jd), sv.parse);
      var d := Decide(ev.overallScore);
      var desc := sv.personDescription(m.id) + EvaluationNote(ev.summary, ev.overallScore);
      Processed(Submission(
        r.messageId, m.id, job.id, ev.overallScore, d, desc,
        [Field("name", m.name), Field("phone", phone), Field("email", PyStr(expected)),
         Field("source_type_id", "2028652")],
        PersonUpdateLiteral(IntToString(SourceTypeId), job.id, d.tag, desc),
        PersonEventLiteral(IntToString(d.activityTypeId), m.id, job.id)))
  }

  /** The body of the loop for one result. */
  function ProcessResult(r: FetchedResult, sv: Services): (o: Outcome)
    ensures (r.resumePath.None? || r.resumePath.value == [] || !sv.fileExists(r.resumePath.value)) ==> o == Raised
    ensures o.Processed? ==> r.jobTitle.Some? && r.stateCode.Some? && o.submission.messageId == r.messageId
    ensures o.Processed? ==> o.submission.decision == Decide(o.submission.score)
    ensures o.Processed? ==>
              o.submission.update
              == PersonUpdateLiteral(IntToString(SourceTypeId), o.submission.jobId,
                                     o.submission.decision.tag, o.submission.description)
    ensures o.Processed? ==>
              o.submission.event
              == PersonEventLiteral(IntToString(o.submission.decision.activityTypeId),
                                    o.submission.personId, o.submission.jobId)
    ensures o.Processed? ==> StartsWith(o.submission.description, sv.personDescription(o.submission.personId))
  {
    if r.resumePath.None? || r.resumePath.value == [] || !sv.fileExists(r.resumePath.value) then Raised
    else match sv.pdfText(r.resumePath.value)
      case None => Raised   // re.findall on None
      case Some(text) =>
        var expected := ExtractEmail(text);
        match sv.searchPeople(PyStr(r.candidateName))
        case None => Raised
        case Some(people) =>
          match SearchPerson(people, expected)
          case None => Raised  // unpacking None
          case Some(m) =>
            if m.name == [] then CandidateNotFound
            else if m.phone.None? || !sv.smsDelivered(SmsNumber(m.phone.value)) then Raised
            else match sv.searchJobs(PyStr(r.jobTitle))
              case None => Raised
              case Some(jobs) =>
                match FindJobByTitleAndState(jobs, r.jobTitle, r.stateCode)
                case NoneAttribute => Raised
                case NotFound => JobNotFound
                case Found(k) =>
                  var o := Submit(r, sv, text, expected, m, m.phone.value, jobs[k]);
                  assert o.Processed? ==> StartsWith(o.submission.description, sv.personDescription(m.id)) by {
                    if o.Processed? {
                      var pd := sv.personDescription(m.id);
                      assert o.submission.description[..|pd|] == pd;
                    }
                  }
                  o
  }

  /** The outcome of the loop body for each result. */
  function Outcomes(rs: seq<FetchedResult>, sv: Services): (os: seq<Outcome>)
    ensures |os| == |rs|
    ensures forall i :: 0 <= i < |rs| ==> os[i] == ProcessResult(rs[i], sv)
    ensures ProcessedDecided(os)
  {
    ProcessedAreDecided(rs, sv);
    seq(|rs|, i requires 0 <= i < |rs| => ProcessResult(rs[i], sv))
  }

  /** The submissions among the outcomes, in order. */
  function SubmissionsOf(os: seq<Outcome>): seq<Submission>
  {
    if os == [] then []
    else
      var o := os[|os| - 1];
      SubmissionsOf(os[..|os| - 1]) + (if o.Processed? then [o.submission] else [])
  }

  /** The submissions of the processed results, in order. */
  function Submissions(rs: seq<FetchedResult>, sv: Services): seq<Submission>
  {
    SubmissionsOf(Outcomes(rs, sv))
  }

  lemma SubmissionsStep(os: seq<Outcome>, i: nat)
    requires i < |os|
    ensures SubmissionsOf(os[..i + 1])
            == SubmissionsOf(os[..i]) + (if os[i].Processed? then [os[i].submission] else [])
  {
    assert os[..i + 1][..i] == os[..i];
  }

  /** The loop over `results`, with its two counters. */
  method RunCycle(results: seq<FetchedResult>, sv: Services)
    returns (successful: nat, failed: nat, submitted: seq<Submission>)
    ensures successful + failed == |results|
    ensures submitted == Submissions(results, sv)
    ensures successful == |submitted|
  {
    successful, failed, submitted := 0, 0, [];
    ghost var os := seq(|results|, k requires 0 <= k < |results| => ProcessResult(results[k], sv));
    var i := 0;
    while i < |results|
      invariant 0 <= i <= |results|
      invariant successful + failed == i
      invariant submitted == SubmissionsOf(os[..i])
      invariant successful == |submitted|
    {
      SubmissionsStep(os, i);
      var outcome := ProcessResult(results[i], sv);
      assert outcome == os[i];
      if outcome.Processed? {
        submitted := submitted + [outcome.submission];
        successful := successful + 1;
      } else {
        failed := failed + 1;
      }
      i := i + 1;
    }
    assert os[..i] == os;
    assert os == Outcomes(results, sv);
  }

  /** A submission decided by the cutoff, tagged in a well-framed update
      and moved with the activity matching its tag. */
  predicate Decided(s: Submission)
  {
    && s.decision == Decide(s.score)
    && s.update == MultipartBody(Boundary, PersonUpdateFields(IntToString(SourceTypeId), s.jobId, s.decision.tag, s.description))
    && s.event == MultipartBody(Boundary, PersonEventFields(IntToString(s.decision.activityTypeId), s.personId, s.jobId))
  }

  /** Every processed outcome carries a decided submission. */
  predicate ProcessedDecided(os: seq<Outcome>)
  {
    forall i :: 0 <= i < |os| && os[i].Processed? ==> Decided(os[i].submission)
  }

  predicate AllDecided(ss: seq<Submission>)
  {
    forall k :: 0 <= k < |ss| ==> Decided(ss[k])
  }

  lemma ProcessedIsDecided(r: FetchedResult, sv: Services)
    ensures ProcessResult(r, sv).Processed? ==> Decided(ProcessResult(r, sv).submission)
  {
    var o := ProcessResult(r, sv);
    if o.Processed? {
      var s := o.submission;
      PersonUpdateIsMultipart(IntToString(SourceTypeId), s.jobId, s.decision.tag, s.description);
      PersonEventIsMultipart(IntToString(s.decision.activityTypeId), s.personId, s.jobId);
    }
  }

  lemma ProcessedAreDecided(rs: seq<FetchedResult>, sv: Services)
    ensures forall i :: 0 <= i < |rs| && ProcessResult(rs[i], sv).Processed? ==>
              Decided(ProcessResult(rs[i], sv).submission)
  {
    forall i | 0 <= i < |rs| && ProcessResult(rs[i], sv).Processed?
      ensures Decided(ProcessResult(rs[i], sv).submission)
    {
      ProcessedIsDecided(rs[i], sv);
    }
  }

  lemma AllDecidedConcat(a: seq<Submission>, b: seq<Submission>)
    requires AllDecided(a) && AllDecided(b)
    ensures AllDecided(a + b)
  {
    forall k | 0 <= k < |a + b| ensures Decided((a + b)[k]) {
      if k < |a| { assert (a + b)[k] == a[k]; } else { assert (a + b)[k] == b[k - |a|]; }
    }
  }

  /** The submissions among outcomes whose submissions are all decided. */
  lemma {:induction false} SubmissionsOfDecided(os: seq<Outcome>)
    requires forall i :: 0 <= i < |os| && os[i].Processed? ==> Decided(os[i].submission)
    ensures AllDecided(SubmissionsOf(os))
    decreases |os|
  {
    if os != [] {
      var o := os[|os| - 1];
      SubmissionsOfDecided(os[..|os| - 1]);
      AllDecidedConcat(SubmissionsOf(os[..|os| - 1]), if o.Processed? then [o.submission] else []);
    }
  }

  /** Every submitted application was decided by the cutoff, tagged in a
      well-framed update, and moved with the activity matching its tag. */
  lemma SubmissionsAreDecided(rs: seq<FetchedResult>, sv: Services)
    ensures AllDecided(Submissions(rs, sv))
  {
    var os := Outcomes(rs, sv);
    forall i | 0 <= i < |os| && os[i].Processed? ensures Decided(os[i].submission) {
      ProcessedIsDecided(rs[i], sv);
    }
    SubmissionsOfDecided(os);
  }

  /** At most one submission per result. */
  lemma {:induction false} SubmissionsBounded(os: seq<Outcome>)
    ensures |SubmissionsOf(os)| <= |os|
    decreases |os|
  {
    if os != [] {
      SubmissionsBounded(os[..|os| - 1]);
    }
  }
}
