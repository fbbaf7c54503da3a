/** `fetch_application` in gmail_extractor.py and full_automation.py: the
    newest message matching the query is read into one application record. */
module Fetch {
  import opened Text
  import opened Base64Url
  import opened Mime
  import opened Application
  import opened Attachments

  datatype ApplicationRecord = ApplicationRecord(
    candidateName: Option<string>,
    jobTitle: Option<string>,
    resumePath: Option<string>,
    resumeFilename: Option<string>,
    messageId: Option<string>,
    subject: Option<string>)

  /** The record returned when the query lists no message. */
  const EmptyRecord := ApplicationRecord(None, None, None, None, None, None)

  datatype FetchOutcome =
    | Fetched(record: ApplicationRecord)
    | Raised(error: DecodeError)   // the résumé's base64 did not decode

  /** `fetch_application(query, download_dir)`. `messageIds` is the list the
      search returned (at most one entry), `msg` the full message fetched for
      its first id; `htmlText` and `utf8` stand for BeautifulSoup and UTF-8
      decoding, `fetch` for the attachments API. */
  method FetchApplication(store: FileStore, messageIds: seq<string>, msg: Message,
                          fetch: string -> string, htmlText: string -> string,
                          utf8: seq<byte> -> string,
                          downloadDir: string, tempDir: string, token: string)
    returns (r: FetchOutcome)
    requires downloadDir == [] ==>
      forall p :: Join(tempDir, "resume_" + token + TempSuffix(p)) !in store.files
    modifies store
    ensures messageIds == [] ==> r == Fetched(EmptyRecord) && store.files == old(store.files)
    ensures messageIds != [] && r.Fetched? ==>
      var subject := GetSubject(msg.headers);
      var walk := WalkStack([msg.payload]);
      var nt := ParseNameAndTitle(FirstBody(walk, "text/html", utf8),
                                  FirstBody(walk, "text/plain", utf8), subject, htmlText);
      && r.record.candidateName == nt.name
      && r.record.jobTitle == nt.title
      && r.record.messageId == Some(msg.id)
      && r.record.subject == Some(subject)
      && (r.record.resumePath.Some? <==> FirstResumePart(walk).Some?)
      && (r.record.resumePath.Some? ==> r.record.resumePath.value in store.files)
      && (r.record.resumePath.Some? ==> r.record.resumeFilename == Some(FirstResumePart(walk).value.filename))
    ensures messageIds != [] && r.Raised? ==> store.files == old(store.files)
    // the résumé: none, a part whose data does not decode, or one new file
    ensures messageIds != [] ==>
      var part := FirstResumePart(WalkStack([msg.payload]));
      if part.None? then
        && r.Fetched? && r.record.resumePath.None? && r.record.resumeFilename.None?
        && store.files == old(store.files)
      else
        match B64UrlToBytes(fetch(part.value.attachmentId))
        case Err(e) => r == Raised(e) && store.files == old(store.files)
        case Ok(bytes) =>
          && r.Fetched? && r.record.resumePath.Some?
          && r.record.resumeFilename == Some(part.value.filename)
          && r.record.resumePath.value !in old(store.files)
          && store.files == old(store.files)[r.record.resumePath.value := bytes]
          && (downloadDir != [] ==>
                FirstFree(old(store.files).Keys, downloadDir, SafeFilename(part.value.filename), r.record.resumePath.value))
          && (downloadDir == [] ==>
                r.record.resumePath.value == Join(tempDir, "resume_" + token + TempSuffix(part.value.filename)))
  {
    if messageIds == [] {
      return Fetched(EmptyRecord);
    }
    var subject := GetSubject(msg.headers);
    var html, text := GetHtmlAndText(msg.payload, utf8);
    var nt := ParseNameAndTitle(html, text, subject, htmlText);
    var saved := DownloadFirstResume(store, msg, fetch, downloadDir, tempDir, token);
    match saved
    case DecodeFailed(e) =>
      r := Raised(e);
    case NoResume =>
      r := Fetched(ApplicationRecord(nt.name, nt.title, None, None, Some(msg.id), Some(subject)));
    case Saved(path, filename) =>
      r := Fetched(ApplicationRecord(nt.name, nt.title, Some(path), Some(filename), Some(msg.id), Some(subject)));
  }
}
