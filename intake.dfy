/** The intake of one fetched application (multiple_users.py's cycle loop and
    full_automation.py's script): matching the candidate and the job in Loxo,
    the score cutoff, the hand-built multipart bodies and the per-cycle
    tallies. Every HTTP call, the PDF reader and the LLM are parameters. */
module Intake {
  import opened Text
  import opened Email
  import opened Evaluator

  // ---------------------------------------------------------------------
  // The score cutoff

  const Cutoff := 60
  const AcceptedTag := "AI Accepted"
  const RejectedTag := "AI Rejected"
  const AcceptedActivity := 760300
  const RejectedActivity := 760312
  const SourceTypeId := 429885

  datatype Decision = Decision(tag: string, activityTypeId: int)

  predicate IsAccepted(d: Decision) { d == Decision(AcceptedTag, AcceptedActivity) }

  /** The tag and the pipeline activity chosen from the overall score. */
  function Decide(score: int): (d: Decision)
    ensures IsAccepted(d) <==> score > Cutoff
    ensures !IsAccepted(d) <==> d == Decision(RejectedTag, RejectedActivity)
  {
    if score > Cutoff then Decision(AcceptedTag, AcceptedActivity)
    else Decision(RejectedTag, RejectedActivity)
  }

  /** full_automation.py's `ah_pronoun`, sent as `other_pronoun`. */
  function Pronoun(score: int): string
  {
    if score > 60 then "AI Accepted" else "AI Rejected"
  }

  /** full_automation.py's `ah_tag`. */
  function FullAutomationTag(score: int): string
  {
    if score > 60 then "AI Accepted" else "AI Rejected"
  }

  /** The pronoun, the tag and multiple_users.py's decision never disagree. */
  lemma PronounAgreesWithTag(score: int)
    ensures Pronoun(score) == FullAutomationTag(score) == Decide(score).tag
  {
  }

  // ---------------------------------------------------------------------
  // Phone numbers

  /** `normalize_phone_number`: the decimal digits of the input, in order. */
  function NormalizePhone(s: string): (r: string)
    ensures forall i :: 0 <= i < |r| ==> IsAsciiDigit(r[i])
    ensures |r| <= |s|
    ensures (forall i :: 0 <= i < |s| ==> !IsAsciiDigit(s[i])) ==> r == []
  {
    if s == [] then [] else (if IsAsciiDigit(s[0]) then [s[0]] else []) + NormalizePhone(s[1..])
  }

  /** Normalising distributes over concatenation, so every digit of the input
      is kept in place and nothing else is. */
  lemma {:induction false} NormalizePhoneConcat(a: string, b: string)
    ensures NormalizePhone(a + b) == NormalizePhone(a) + NormalizePhone(b)
    decreases |a|
  {
    if a != [] {
      assert (a + b)[1..] == a[1..] + b;
      NormalizePhoneConcat(a[1..], b);
    } else {
      assert a + b == b;
    }
  }

  /** A string of digits is already normal; hence normalising is idempotent. */
  lemma {:induction false} NormalizeDigits(s: string)
    requires forall i :: 0 <= i < |s| ==> IsAsciiDigit(s[i])
    ensures NormalizePhone(s) == s
    decreases |s|
  {
    if s != [] {
      NormalizeDigits(s[1..]);
    }
  }

  lemma NormalizePhoneIdempotent(s: string)
    ensures NormalizePhone(NormalizePhone(s)) == NormalizePhone(s)
  {
    NormalizeDigits(NormalizePhone(s));
  }

  /** `replace(c, "")` for one character: the characters other than `c`. */
  lemma {:induction false} RemoveCharKeepsOthers(s: string, c: char)
    ensures forall x :: x in RemoveAll(s, [c]) <==> x in s && x != c
    ensures !IsAsciiDigit(c) ==> NormalizePhone(RemoveAll(s, [c])) == NormalizePhone(s)
    decreases |s|
  {
    if s != [] {
      RemoveCharKeepsOthers(s[1..], c);
      assert s == [s[0]] + s[1..];
      if s[..1] == [c] {
        assert s[0] == c;
      } else {
        assert s[0] != c;
      }
    }
  }

  /** send_whatsapp_message's address. */
  function WhatsAppAddress(number: string): string
  {
    "whatsapp:" + RemoveAll(RemoveAll(number, "-"), " ")
  }

  /** send_sms_message's number. */
  function SmsNumber(number: string): string
  {
    RemoveAll(RemoveAll(number, "-"), " ")
  }

  /** The address is "whatsapp:" and the number without hyphens or spaces:
      every other character, and so every digit, is kept. */
  lemma WhatsAppAddressShape(number: string)
    ensures WhatsAppAddress(number) == "whatsapp:" + SmsNumber(number)
    ensures forall x :: x in SmsNumber(number) <==> x in number && x != '-' && x != ' '
    ensures NormalizePhone(WhatsAppAddress(number)) == NormalizePhone(number)
  {
    var once := RemoveAll(number, "-");
    RemoveCharKeepsOthers(number, '-');
    RemoveCharKeepsOthers(once, ' ');
    NormalizePhoneConcat("whatsapp:", SmsNumber(number));
    assert NormalizePhone("whatsapp:") == [];
  }

  // ---------------------------------------------------------------------
  // search_person_by_name

  /** A Loxo person; each e-mail entry's `value` may be missing. */
  datatype Person = Person(name: string, id: string, emails: seq<Option<string>>, phones: seq<Option<string>>)

  datatype PersonMatch = PersonMatch(name: string, id: string, phone: Option<string>)

  predicate HasEmail(p: Person, expected: Option<string>)
  {
    expected in p.emails
  }

  function MatchOf(p: Person): PersonMatch
  {
    PersonMatch(p.name, p.id, if p.phones == [] then None else p.phones[0])
  }

  /** The first person, in result order, with an e-mail equal to the expected
      one (a missing value equals a missing expectation). */
  function SearchPerson(people: seq<Person>, expected: Option<string>): (r: Option<PersonMatch>)
    ensures r.None? <==> forall i :: 0 <= i < |people| ==> !HasEmail(people[i], expected)
    ensures forall i ::
              (0 <= i < |people| && HasEmail(people[i], expected)
               && forall j :: 0 <= j < i ==> !HasEmail(people[j], expected)) ==> r == Some(MatchOf(people[i]))
  {
    if people == [] then None
    else if HasEmail(people[0], expected) then Some(MatchOf(people[0]))
    else
      var r := SearchPerson(people[1..], expected);
      assert forall k :: 1 <= k < |people| ==> people[k] == people[1..][k - 1];
      r
  }

  // ---------------------------------------------------------------------
  // find_job_by_title

  datatype Job = Job(title: string, id: string, stateCode: string)

  predicate TitleMatch(title: string, job: Job) { Contains(Lower(job.title), Lower(title)) }

  predicate StateMatch(state: string, job: Job) { Contains(Upper(job.stateCode), Upper(state)) }

  /** No job before index `n` has a title containing `title`. */
  predicate NoTitleMatchBefore(jobs: seq<Job>, title: string, n: int)
  {
    forall i :: 0 <= i < n && i < |jobs| ==> !TitleMatch(title, jobs[i])
  }

  lemma NoTitleMatchShift(jobs: seq<Job>, title: string, n: int)
    requires jobs != [] && !TitleMatch(title, jobs[0])
    ensures NoTitleMatchBefore(jobs, title, n + 1) <==> NoTitleMatchBefore(jobs[1..], title, n)
  {
    if NoTitleMatchBefore(jobs[1..], title, n) {
      forall i | 0 <= i < n + 1 && i < |jobs| ensures !TitleMatch(title, jobs[i]) {
        if i > 0 { assert jobs[i] == jobs[1..][i - 1]; }
      }
    }
    if NoTitleMatchBefore(jobs, title, n + 1) {
      forall i | 0 <= i < n && i < |jobs[1..]| ensures !TitleMatch(title, jobs[1..][i]) {
        assert jobs[1..][i] == jobs[i + 1];
      }
    }
  }

  /** full_automation.py: index of the first job whose title contains the
      query title, case-insensitively. */
  function FindJobByTitle(jobs: seq<Job>, title: string): (r: Option<nat>)
    ensures r.None? <==> NoTitleMatchBefore(jobs, title, |jobs|)
    ensures r.Some? ==> r.value < |jobs| && TitleMatch(title, jobs[r.value])
                        && NoTitleMatchBefore(jobs, title, r.value)
  {
    if jobs == [] then None
    else if TitleMatch(title, jobs[0]) then
      assert !NoTitleMatchBefore(jobs, title, |jobs|) by { assert 0 < |jobs|; }
      Some(0)
    else
      var r := FindJobByTitle(jobs[1..], title);
      NoTitleMatchShift(jobs, title, |jobs| - 1);
      if r.None? then None
      else
        NoTitleMatchShift(jobs, title, r.value);
        assert jobs[r.value + 1] == jobs[1..][r.value];
        Some(r.value + 1)
  }

  datatype JobSearch = Found(index: nat) | NotFound | NoneAttribute

  /** Where multiple_users.py's loop stops at a job with a string title:
      it returns there, or raises when the state code is `None`. */
  predicate StopsAt(title: string, state: Option<string>, job: Job)
  {
    TitleMatch(title, job) && (state.None? || StateMatch(state.value, job))
  }

  /** No job before index `n` is one the loop stops at. */
  predicate NoStopBefore(jobs: seq<Job>, title: string, state: Option<string>, n: int)
  {
    forall i :: 0 <= i < n && i < |jobs| ==> !StopsAt(title, state, jobs[i])
  }

  lemma NoStopShift(jobs: seq<Job>, title: string, state: Option<string>, n: int)
    requires jobs != [] && !StopsAt(title, state, jobs[0])
    ensures NoStopBefore(jobs, title, state, n + 1) <==> NoStopBefore(jobs[1..], title, state, n)
  {
    if NoStopBefore(jobs[1..], title, state, n) {
      forall i | 0 <= i < n + 1 && i < |jobs| ensures !StopsAt(title, state, jobs[i]) {
        if i > 0 { assert jobs[i] == jobs[1..][i - 1]; }
      }
    }
    if NoStopBefore(jobs, title, state, n + 1) {
      forall i | 0 <= i < n && i < |jobs[1..]| ensures !StopsAt(title, state, jobs[1..][i]) {
        assert jobs[1..][i] == jobs[i + 1];
      }
    }
  }

  function FirstStop(jobs: seq<Job>, title: string, state: Option<string>): (r: Option<nat>)
    ensures r.None? <==> NoStopBefore(jobs, title, state, |jobs|)
    ensures r.Some? ==> r.value < |jobs| && StopsAt(title, state, jobs[r.value])
                        && NoStopBefore(jobs, title, state, r.value)
  {
    if jobs == [] then None
    else if StopsAt(title, state, jobs[0]) then
      assert !NoStopBefore(jobs, title, state, |jobs|) by { assert 0 < |jobs|; }
      Some(0)
    else
      var r := FirstStop(jobs[1..], title, state);
      NoStopShift(jobs, title, state, |jobs| - 1);
      if r.None? then None
      else
        NoStopShift(jobs, title, state, r.value);
        assert jobs[r.value + 1] == jobs[1..][r.value];
        Some(r.value + 1)
  }

  /** multiple_users.py: the title must match and the state code must be
      contained in the job's, both case-insensitively. A `None` title fails
      on the first job, a `None` state code on the first title match. */
  function FindJobByTitleAndState(jobs: seq<Job>, title: Option<string>, state: Option<string>): (r: JobSearch)
    ensures jobs == [] ==> r == NotFound
    ensures jobs != [] && title.None? ==> r == NoneAttribute
    ensures r.Found? ==> && title.Some? && state.Some? && r.index < |jobs|
                         && TitleMatch(title.value, jobs[r.index]) && StateMatch(state.value, jobs[r.index])
                         && forall j :: 0 <= j < r.index ==>
                              !(TitleMatch(title.value, jobs[j]) && StateMatch(state.value, jobs[j]))
    ensures r == NotFound && title.Some? && state.Some? ==>
              forall j :: 0 <= j < |jobs| ==> !(TitleMatch(title.value, jobs[j]) && StateMatch(state.value, jobs[j]))
    ensures title.Some? && state.None? ==>
              (r == NoneAttribute <==> exists j :: 0 <= j < |jobs| && TitleMatch(title.value, jobs[j]))
  {
    if jobs == [] then NotFound
    else if title.None? then NoneAttribute
    else match FirstStop(jobs, title.value, state)
      case None => NotFound
      case Some(i) => if state.None? then NoneAttribute else Found(i)
  }

  /** An empty state code is contained in every state, so the
      multiple_users.py search then agrees with full_automation.py's. */
  lemma EmptyStateIsTitleSearch(jobs: seq<Job>, title: string)
    ensures var r := FindJobByTitleAndState(jobs, Some(title), Some(""));
            var t := FindJobByTitle(jobs, title);
            (r.Found? <==> t.Some?) && (r.Found? ==> r.index == t.value)
  {
    forall j | 0 <= j < |jobs|
      ensures StateMatch("", jobs[j])
    {
      assert OccursAt(Upper(jobs[j].stateCode), Upper(""), 0);
    }
  }

  // ---------------------------------------------------------------------
  // Multipart bodies (section 5.1.1 of RFC 2046, RFC 7578)

  /** The boundary declared in the content-type header. */
  const Boundary := "---011000010111000001101001"
  const ContentType := "multipart/form-data; boundary=---011000010111000001101001"

  /** The delimiter line as the hand-written bodies spell it. */
  const Dashes := "-----011000010111000001101001"
  /** The disposition header up to the field name, and what closes it. */
  const Disposition := "\r\nContent-Disposition: form-data; name=\""
  const HeadEnd := "\"\r\n\r\n"

  datatype Field = Field(name: string, value: string)

  function Delimiter(boundary: string): string { "--" + boundary }

  /** The delimiter line, the disposition header and the blank line. */
  function FieldHead(boundary: string, name: string): string
  {
    Delimiter(boundary) + Disposition + name + HeadEnd
  }

  /** One form field: its head, the value and a line break. */
  function FieldPart(boundary: string, f: Field): string
  {
    FieldHead(boundary, f.name) + f.value + "\r\n"
  }

  function FieldParts(boundary: string, fs: seq<Field>): string
  {
    if fs == [] then [] else FieldParts(boundary, fs[..|fs| - 1]) + FieldPart(boundary, fs[|fs| - 1])
  }

  /** The body: each field framed by the delimiter, then the close delimiter. */
  function MultipartBody(boundary: string, fs: seq<Field>): string
  {
    FieldParts(boundary, fs) + Delimiter(boundary) + "--"
  }

  /** Every field's part lies in the field parts, in order. */
  lemma FieldPartsHoldFields(boundary: string, fs: seq<Field>)
    ensures forall k :: 0 <= k < |fs| ==> Contains(FieldParts(boundary, fs), FieldPart(boundary, fs[k]))
    ensures fs != [] ==> StartsWith(FieldParts(boundary, fs), Delimiter(boundary))
  {
    forall k | 0 <= k < |fs|
      ensures Contains(FieldParts(boundary, fs), FieldPart(boundary, fs[k]))
    {
      FieldPartHeld(boundary, fs, k);
    }
    if fs != [] {
      FieldPartsStart(boundary, fs);
    }
  }

  /** The `k`-th field's part lies in the field parts. */
  lemma {:induction false} FieldPartHeld(boundary: string, fs: seq<Field>, k: nat)
    requires k < |fs|
    ensures Contains(FieldParts(boundary, fs), FieldPart(boundary, fs[k]))
    decreases |fs|
  {
    var init := fs[..|fs| - 1];
    var front := FieldParts(boundary, init);
    var last := FieldPart(boundary, fs[|fs| - 1]);
    assert FieldParts(boundary, fs) == front + last;
    if k == |fs| - 1 {
      assert OccursAt(front + last, last, |front|);
    } else {
      FieldPartHeld(boundary, init, k);
      assert fs[k] == init[k];
      ContainsInPrefix(front, last, FieldPart(boundary, init[k]));
    }
  }

  lemma FieldPartsStart(boundary: string, fs: seq<Field>)
    requires fs != []
    ensures StartsWith(FieldParts(boundary, fs), Delimiter(boundary))
    decreases |fs|
  {
    var init := fs[..|fs| - 1];
    if init != [] {
      FieldPartsStart(boundary, init);
    }
    StartsWithDelimiter(boundary, FieldParts(boundary, init), fs[|fs| - 1]);
  }

  lemma StartsWithDelimiter(boundary: string, front: string, f: Field)
    requires front != [] ==> StartsWith(front, Delimiter(boundary))
    ensures StartsWith(front + FieldPart(boundary, f), Delimiter(boundary))
  {
    var last, d := FieldPart(boundary, f), Delimiter(boundary);
    assert last[..|d|] == d;
    if front == [] {
      assert front + last == last;
    } else {
      assert (front + last)[..|d|] == front[..|d|];
    }
  }

  /** Text found in the front is found in the whole. */
  lemma ContainsInPrefix(front: string, back: string, p: string)
    requires Contains(front, p)
    ensures Contains(front + back, p)
  {
    var i: nat :| i <= |front| && OccursAt(front, p, i);
    assert (front + back)[i..i + |p|] == front[i..i + |p|];
    assert OccursAt(front + back, p, i);
  }

  /** The body opens with the delimiter of the boundary, ends with the close
      delimiter, and holds every field's part. */
  lemma MultipartFraming(boundary: string, fs: seq<Field>)
    ensures StartsWith(MultipartBody(boundary, fs), Delimiter(boundary))
    ensures EndsWith(MultipartBody(boundary, fs), Delimiter(boundary) + "--")
    ensures forall k :: 0 <= k < |fs| ==> Contains(MultipartBody(boundary, fs), FieldPart(boundary, fs[k]))
  {
    var body := MultipartBody(boundary, fs);
    var front := FieldParts(boundary, fs);
    var tail := Delimiter(boundary) + "--";
    var d := Delimiter(boundary);
    FieldPartsHoldFields(boundary, fs);
    assert body == front + tail;
    assert body[|body| - |tail|..] == tail;
    if fs == [] {
      assert body[..|d|] == d;
    } else {
      assert body[..|d|] == front[..|d|];
    }
    forall k | 0 <= k < |fs|
      ensures Contains(body, FieldPart(boundary, fs[k]))
    {
      var p := FieldPart(boundary, fs[k]);
      var i: nat :| i <= |front| && OccursAt(front, p, i);
      assert body[i..i + |p|] == front[i..i + |p|];
      assert OccursAt(body, p, i);
    }
  }

  /** The PUT to `people/{id}` in multiple_users.py, the f-string's text
      cut where the values go in and at each delimiter. */
  function PersonUpdateLiteral(sourceTypeId: string, jobId: string, tag: string, description: string): string
  {
    Dashes + Disposition + "source_type_id" + HeadEnd + sourceTypeId
    + "\r\n" + Dashes + Disposition + "job_id" + HeadEnd + jobId
    + "\r\n" + Dashes + Disposition + "person[raw_tags][]" + HeadEnd + tag
    + "\r\n" + Dashes + Disposition + "person[description]" + HeadEnd + description
    + "\r\n" + Dashes + Disposition + "person[source_type_id]" + HeadEnd + sourceTypeId
    + "\r\n" + Dashes + "--"
  }

  function PersonUpdateFields(sourceTypeId: string, jobId: string, tag: string, description: string): seq<Field>
  {
    [Field("source_type_id", sourceTypeId), Field("job_id", jobId), Field("person[raw_tags][]", tag),
     Field("person[description]", description), Field("person[source_type_id]", sourceTypeId)]
  }

  /** The POST to `person_events` in multiple_users.py. */
  function PersonEventLiteral(activityTypeId: string, personId: string, jobId: string): string
  {
    Dashes + Disposition + "person_event[activity_type_id]" + HeadEnd + activityTypeId
    + "\r\n" + Dashes + Disposition + "person_event[person_id]" + HeadEnd + personId
    + "\r\n" + Dashes + Disposition + "person_event[job_id]" + HeadEnd + jobId
    + "\r\n" + Dashes + "--"
  }

  function PersonEventFields(activityTypeId: string, personId: string, jobId: string): seq<Field>
  {
    [Field("person_event[activity_type_id]", activityTypeId), Field("person_event[person_id]", personId),
     Field("person_event[job_id]", jobId)]
  }

  function JobTagFields(jobId: string, tag: string): seq<Field>
  {
    [Field("job_id", jobId), Field("person[raw_tags][]", tag)]
  }

  /** The PUT in full_automation.py: the job and the tag only. */
  function JobTagLiteral(jobId: string, tag: string): string
  {
    Dashes + Disposition + "job_id" + HeadEnd + jobId
    + "\r\n" + Dashes + Disposition + "person[raw_tags][]" + HeadEnd + tag
    + "\r\n" + Dashes + "--"
  }

  lemma FieldPartsSnoc(boundary: string, fs: seq<Field>, f: Field)
    ensures FieldParts(boundary, fs + [f]) == FieldParts(boundary, fs) + FieldPart(boundary, f)
  {
    assert (fs + [f])[..|fs|] == fs;
  }

  /** The delimiter the hand-written bodies spell out is the one the
      boundary makes. */
  lemma DelimiterIsDashes()
    ensures Delimiter(Boundary) == Dashes
  {
  }

  /** Appending one field's part, spelled out as the hand-written bodies
      spell it. */
  lemma AppendField(a: string, fs: seq<Field>, f: Field)
    requires a == FieldParts(Boundary, fs)
    ensures FieldParts(Boundary, fs + [f]) == a + Dashes + Disposition + f.name + HeadEnd + f.value + "\r\n"
  {
    FieldPartsSnoc(Boundary, fs, f);
    DelimiterIsDashes();
  }

  /** The close delimiter, spelled out. */
  lemma CloseBody(a: string, fs: seq<Field>)
    requires a == FieldParts(Boundary, fs)
    ensures MultipartBody(Boundary, fs) == a + Dashes + "--"
  {
    DelimiterIsDashes();
  }

  /** Each hand-written body is exactly the RFC 2046 framing of its fields
      with the declared boundary. */
  lemma PersonUpdateIsMultipart(sourceTypeId: string, jobId: string, tag: string, description: string)
    ensures PersonUpdateLiteral(sourceTypeId, jobId, tag, description)
            == MultipartBody(Boundary, PersonUpdateFields(sourceTypeId, jobId, tag, description))
  {
    var f0, f1, f2, f3, f4 := Field("source_type_id", sourceTypeId), Field("job_id", jobId), Field("person[raw_tags][]", tag), Field("person[description]", description), Field("person[source_type_id]", sourceTypeId);
    var p3 := PersonUpdateHead(sourceTypeId, jobId, tag);
    var p4 := p3 + Dashes + Disposition + "person[description]" + HeadEnd + description + "\r\n";
    assert FieldParts(Boundary, [f0, f1, f2, f3]) == p4 by {
      AppendField(p3, [f0, f1, f2], f3);
      assert [f0, f1, f2] + [f3] == [f0, f1, f2, f3];
    }
    var p5 := p4 + Dashes + Disposition + "person[source_type_id]" + HeadEnd + sourceTypeId + "\r\n";
    assert FieldParts(Boundary, [f0, f1, f2, f3, f4]) == p5 by {
      AppendField(p4, [f0, f1, f2, f3], f4);
      assert [f0, f1, f2, f3] + [f4] == [f0, f1, f2, f3, f4];
    }
    CloseBody(p5, [f0, f1, f2, f3, f4]);
  }

  /** The first three fields of the person update, spelled out. */
  function PersonUpdateHead(sourceTypeId: string, jobId: string, tag: string): (r: string)
    ensures r == FieldParts(Boundary, [Field("source_type_id", sourceTypeId), Field("job_id", jobId), Field("person[raw_tags][]", tag)])
  {
    var f0, f1, f2 := Field("source_type_id", sourceTypeId), Field("job_id", jobId), Field("person[raw_tags][]", tag);
    var p1 := Dashes + Disposition + "source_type_id" + HeadEnd + sourceTypeId + "\r\n";
    assert FieldParts(Boundary, [f0]) == p1 by {
      AppendField([], [], f0);
      assert [] + [f0] == [f0];
    }
    var p2 := p1 + Dashes + Disposition + "job_id" + HeadEnd + jobId + "\r\n";
    assert FieldParts(Boundary, [f0, f1]) == p2 by {
      AppendField(p1, [f0], f1);
      assert [f0] + [f1] == [f0, f1];
    }
    var p3 := p2 + Dashes + Disposition + "person[raw_tags][]" + HeadEnd + tag + "\r\n";
    assert FieldParts(Boundary, [f0, f1, f2]) == p3 by {
      AppendField(p2, [f0, f1], f2);
      assert [f0, f1] + [f2] == [f0, f1, f2];
    }
    p3
  }

  lemma PersonEventIsMultipart(activityTypeId: string, personId: string, jobId: string)
    ensures PersonEventLiteral(activityTypeId, personId, jobId) == MultipartBody(Boundary, PersonEventFields(activityTypeId, personId, jobId))
  {
    var f0, f1, f2 := Field("person_event[activity_type_id]", activityTypeId), Field("person_event[person_id]", personId), Field("person_event[job_id]", jobId);
    var p1 := Dashes + Disposition + "person_event[activity_type_id]" + HeadEnd + activityTypeId + "\r\n";
    assert FieldParts(Boundary, [f0]) == p1 by {
      AppendField([], [], f0);
      assert [] + [f0] == [f0];
    }
    var p2 := p1 + Dashes + Disposition + "person_event[person_id]" + HeadEnd + personId + "\r\n";
    assert FieldParts(Boundary, [f0, f1]) == p2 by {
      AppendField(p1, [f0], f1);
      assert [f0] + [f1] == [f0, f1];
    }
    var p3 := p2 + Dashes + Disposition + "person_event[job_id]" + HeadEnd + jobId + "\r\n";
    assert FieldParts(Boundary, [f0, f1, f2]) == p3 by {
      AppendField(p2, [f0, f1], f2);
      assert [f0, f1] + [f2] == [f0, f1, f2];
    }
    CloseBody(p3, [f0, f1, f2]);
  }

  lemma JobTagIsMultipart(jobId: string, tag: string)
    ensures JobTagLiteral(jobId, tag) == MultipartBody(Boundary, JobTagFields(jobId, tag))
  {
    var f0, f1 := Field("job_id", jobId), Field("person[raw_tags][]", tag);
    var p1 := Dashes + Disposition + "job_id" + HeadEnd + jobId + "\r\n";
    assert FieldParts(Boundary, [f0]) == p1 by {
      AppendField([], [], f0);
      assert [] + [f0] == [f0];
    }
    var p2 := p1 + Dashes + Disposition + "person[raw_tags][]" + HeadEnd + tag + "\r\n";
    assert FieldParts(Boundary, [f0, f1]) == p2 by {
      AppendField(p1, [f0], f1);
      assert [f0] + [f1] == [f0, f1];
    }
    CloseBody(p2, [f0, f1]);
  }

  /** The PUT of lang_graph_sms.py's evaluation: the job and the new
      description. */
  function JobDescriptionLiteral(jobId: string, description: string): string
  {
    Dashes + Disposition + "job_id" + HeadEnd + jobId
    + "\r\n" + Dashes + Disposition + "person[description]" + HeadEnd + description
    + "\r\n" + Dashes + "--"
  }

  /** The body frames exactly the job and the description with the boundary
      the content-type header declares. */
  lemma JobDescriptionIsMultipart(jobId: string, description: string)
    ensures JobDescriptionLiteral(jobId, description)
            == MultipartBody(Boundary, [Field("job_id", jobId), Field("person[description]", description)])
  {
    var f0, f1 := Field("job_id", jobId), Field("person[description]", description);
    var p1 := Dashes + Disposition + "job_id" + HeadEnd + jobId + "\r\n";
    assert FieldParts(Boundary, [f0]) == p1 by {
      AppendField([], [], f0);
      assert [] + [f0] == [f0];
    }
    var p2 := p1 + Dashes + Disposition + "person[description]" + HeadEnd + description + "\r\n";
    assert FieldParts(Boundary, [f0, f1]) == p2 by {
      AppendField(p1, [f0], f1);
      assert [f0] + [f1] == [f0, f1];
    }
    CloseBody(p2, [f0, f1]);
  }
}
