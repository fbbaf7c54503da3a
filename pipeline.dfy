/** pipeline.py: `run_pipeline_summary` walks a job's person events, skips
    those already in the ledger or without documents, summarises each
    document's recording into the person's description, and marks the event
    processed. The Loxo and OpenAI calls of recording_auto.py are the
    `Externals`; the people's descriptions are the `People` object. */
module Pipeline {
  import opened Text
  import opened Ledger

  datatype Document = Document(id: int)
  datatype PersonEvent = PersonEvent(id: int, personId: int, documents: seq<Document>)

  /** recording_auto.py's calls: `download_document` (the local path, or
      `None`), `transcribe_and_summarize` (the summary, or `None`), whether
      the GET of `get_person_details` answers 200, and BeautifulSoup's
      `get_text`. */
  datatype Externals = Externals(
    download: (int, int, string) -> Option<string>,
    summarize: string -> Option<string>,
    personFound: int -> bool,
    getText: string -> string)

  /** The people's descriptions in Loxo. */
  class People {
    var descriptions: map<int, string>

    constructor (descriptions0: map<int, string>)
      ensures descriptions == descriptions0
    {
      descriptions := descriptions0;
    }
  }

  /** The description stored for a person, "" when there is none. */
  function Describe(descriptions: map<int, string>, personId: int): string
  {
    if personId in descriptions then descriptions[personId] else ""
  }

  /** `get_person_details` followed by `(old_desc or "")`: "" when the GET
      fails, otherwise the stored description as text. */
  function PersonDetails(descriptions: map<int, string>, personId: int, ext: Externals): string
  {
    if !ext.personFound(personId) then ""
    else
      var d := Describe(descriptions, personId);
      if d == [] then d else ext.getText(d)
  }

  /** Every GET succeeds and every description is plain text, which
      `get_text` leaves as it is. */
  ghost predicate PlainText(ext: Externals)
  {
    (forall p :: ext.personFound(p)) && (forall t :: ext.getText(t) == t)
  }

  /** `f"{person_id}_{doc_id}.wav"`. */
  function Filename(personId: int, docId: int): string
  {
    IntToString(personId) + "_" + IntToString(docId) + ".wav"
  }

  const SummaryHeading := "\n\nInterview Summary:\n"

  /** One document: when the download and the summary both succeed, the
      summary is appended to the person's description. */
  function DocStep(descriptions: map<int, string>, ev: PersonEvent, doc: Document, ext: Externals): map<int, string>
  {
    var path := ext.download(ev.id, doc.id, Filename(ev.personId, doc.id));
    if path.None? || path.value == [] then descriptions
    else
      var summary := ext.summarize(path.value);
      if summary.None? || summary.value == [] then descriptions
      else descriptions[ev.personId := PersonDetails(descriptions, ev.personId, ext) + SummaryHeading + summary.value]
  }

  /** The documents `docs` of `ev`, in order. */
  function DocsFold(descriptions: map<int, string>, ev: PersonEvent, docs: seq<Document>, ext: Externals): map<int, string>
  {
    if docs == [] then descriptions
    else DocStep(DocsFold(descriptions, ev, docs[..|docs| - 1], ext), ev, docs[|docs| - 1], ext)
  }

  /** The ledger, the descriptions and the two counters during a run. */
  datatype RunState = RunState(rows: seq<Row>, nextId: nat, descriptions: map<int, string>, processed: nat, skipped: nat)

  /** One event of the loop, after the stop check. */
  function EventStep(s: RunState, jobId: int, ev: PersonEvent, ext: Externals): RunState
  {
    if HasEvent(s.rows, ev.id) || ev.documents == [] then s.(skipped := s.skipped + 1)
    else
      RunState(s.rows + [Row(s.nextId, ev.id, jobId, ev.personId)], s.nextId + 1,
               DocsFold(s.descriptions, ev, ev.documents, ext), s.processed + 1, s.skipped)
  }

  /** The events `evs`, in order. */
  function Replay(s: RunState, jobId: int, evs: seq<PersonEvent>, ext: Externals): RunState
  {
    if evs == [] then s else EventStep(Replay(s, jobId, evs[..|evs| - 1], ext), jobId, evs[|evs| - 1], ext)
  }

  /** The first iteration, from `k` on, at which a stop is requested, or
      `n` when none is. */
  function StopIndex(stop: Option<nat -> bool>, n: nat, k: nat): (r: nat)
    requires k <= n
    ensures k <= r <= n
    ensures forall i :: k <= i < r ==> !(stop.Some? && stop.value(i))
    ensures r < n ==> stop.Some? && stop.value(r)
    decreases n - k
  {
    if k == n || (stop.Some? && stop.value(k)) then k else StopIndex(stop, n, k + 1)
  }

  /** One document of the inner loop. */
  method SummarizeDocument(people: People, ev: PersonEvent, doc: Document, ext: Externals)
    modifies people
    ensures people.descriptions == DocStep(old(people.descriptions), ev, doc, ext)
  {
    var path := ext.download(ev.id, doc.id, Filename(ev.personId, doc.id));
    if path.Some? && path.value != [] {
      var summary := ext.summarize(path.value);
      if summary.Some? && summary.value != [] {
        var oldDesc := PersonDetails(people.descriptions, ev.personId, ext);
        people.descriptions := people.descriptions[ev.personId := oldDesc + SummaryHeading + summary.value];
      }
    }
  }

  /** The inner loop over an event's documents. */
  method SummarizeDocuments(people: People, ev: PersonEvent, ext: Externals)
    modifies people
    ensures people.descriptions == DocsFold(old(people.descriptions), ev, ev.documents, ext)
  {
    var j := 0;
    assert ev.documents[..0] == [];
    while j < |ev.documents|
      invariant 0 <= j <= |ev.documents|
      invariant people.descriptions == DocsFold(old(people.descriptions), ev, ev.documents[..j], ext)
    {
      assert ev.documents[..j + 1][..j] == ev.documents[..j];
      SummarizeDocument(people, ev, ev.documents[j], ext);
      j := j + 1;
    }
    assert ev.documents[..j] == ev.documents;
  }

  /** One event, from the ledger check to the mark. */
  method ProcessEvent(ledger: ProcessedEvents, people: People, jobId: int, ev: PersonEvent, ext: Externals,
                      processed: nat, skipped: nat)
    returns (processed': nat, skipped': nat)
    requires ledger.Valid() && ledger.created
    modifies ledger, people
    ensures ledger.Valid() && ledger.created
    ensures processed' + skipped' == processed + skipped + 1
    ensures RunState(ledger.rows, ledger.nextId, people.descriptions, processed', skipped')
            == EventStep(RunState(old(ledger.rows), old(ledger.nextId), old(people.descriptions), processed, skipped), jobId, ev, ext)
  {
    processed', skipped' := processed, skipped;
    var seen := ledger.IsEventProcessed(ev.id);
    HasEventIff(ledger.rows, ev.id);
    if seen {
      skipped' := skipped' + 1;
    } else if ev.documents == [] {
      skipped' := skipped' + 1;
    } else {
      SummarizeDocuments(people, ev, ext);
      ledger.MarkEventProcessed(ev.id, jobId, ev.personId);
      processed' := processed' + 1;
    }
  }

  lemma ReplayStep(s: RunState, jobId: int, evs: seq<PersonEvent>, i: nat, ext: Externals)
    requires i < |evs|
    ensures Replay(s, jobId, evs[..i + 1], ext) == EventStep(Replay(s, jobId, evs[..i], ext), jobId, evs[i], ext)
  {
    assert evs[..i + 1][..i] == evs[..i];
  }

  /** The callback's arguments after `n` events of `total`: it counts up by
      one from 1. */
  function Ticks(total: nat, n: nat): (r: seq<(nat, nat)>)
    ensures |r| == n
    ensures forall j :: 0 <= j < n ==> r[j] == (total, j + 1)
  {
    if n == 0 then [] else Ticks(total, n - 1) + [(total, n)]
  }

  /** The body of the loop for event `i` of a run that started from
      `start`: the event, then the callback. */
  method ProcessNext(ledger: ProcessedEvents, people: People, jobId: int, events: seq<PersonEvent>, i: nat,
                     ext: Externals, processed: nat, skipped: nat, hasCallback: bool, progress: seq<(nat, nat)>,
                     ghost start: RunState)
    returns (processed': nat, skipped': nat, progress': seq<(nat, nat)>)
    requires i < |events| && processed + skipped == i
    requires ledger.Valid() && ledger.created
    requires RunState(ledger.rows, ledger.nextId, people.descriptions, processed, skipped)
             == Replay(start, jobId, events[..i], ext)
    requires progress == if hasCallback then Ticks(|events|, i) else []
    modifies ledger, people
    ensures ledger.Valid() && ledger.created
    ensures processed' + skipped' == i + 1
    ensures RunState(ledger.rows, ledger.nextId, people.descriptions, processed', skipped')
            == Replay(start, jobId, events[..i + 1], ext)
    ensures progress' == if hasCallback then Ticks(|events|, i + 1) else []
  {
    processed', skipped' := ProcessEvent(ledger, people, jobId, events[i], ext, processed, skipped);
    ReplayStep(start, jobId, events, i, ext);
    progress' := progress;
    if hasCallback {
      progress' := progress' + [(|events|, processed' + skipped')];
    }
  }

  /** `run_pipeline_summary(job_id, progress_callback, stop_requested)`
      over the events `get_person_events` returned; `stop`, when present,
      answers `stop_requested()` at each iteration, and `progress` lists the
      callback's arguments when there is a callback. */
  method RunPipelineSummary(ledger: ProcessedEvents, people: People, jobId: int, events: seq<PersonEvent>,
                            ext: Externals, stop: Option<nat -> bool>, hasCallback: bool)
    returns (total: nat, processed: nat, skipped: nat, progress: seq<(nat, nat)>)
    requires ledger.Valid() && ledger.created
    modifies ledger, people
    ensures ledger.Valid() && ledger.created
    ensures total == |events|
    // the loop runs up to the first stop request, and the counters add up
    ensures var k := StopIndex(stop, |events|, 0);
            && processed + skipped == k <= total
            && RunState(ledger.rows, ledger.nextId, people.descriptions, processed, skipped)
               == Replay(RunState(old(ledger.rows), old(ledger.nextId), old(people.descriptions), 0, 0), jobId, events[..k], ext)
    // the callback hears of every finished event, counting up by one
    ensures progress == if hasCallback then Ticks(total, processed + skipped) else []
  {
    ghost var start := RunState(ledger.rows, ledger.nextId, people.descriptions, 0, 0);
    ghost var k := StopIndex(stop, |events|, 0);
    total, processed, skipped, progress := |events|, 0, 0, [];
    var i := 0;
    assert events[..i] == [];
    // the source's `break` on a stop request, as the loop guard
    while i < |events| && !(stop.Some? && stop.value(i))
      invariant 0 <= i <= k
      invariant ledger.Valid() && ledger.created
      invariant processed + skipped == i
      invariant RunState(ledger.rows, ledger.nextId, people.descriptions, processed, skipped)
                == Replay(start, jobId, events[..i], ext)
      invariant progress == if hasCallback then Ticks(total, i) else []
    {
      processed, skipped, progress :=
        ProcessNext(ledger, people, jobId, events, i, ext, processed, skipped, hasCallback, progress, start);
      i := i + 1;
    }
    assert i == k;
  }

  // ---------------------------------------------------------------------
  // Properties of a run

  /** Every event is counted once, as processed or as skipped, and the
      ledger grows by one row per processed event, keeping its old rows. */
  lemma {:induction false} ReplayCounts(s: RunState, jobId: int, evs: seq<PersonEvent>, ext: Externals)
    ensures var t := Replay(s, jobId, evs, ext);
            && t.processed + t.skipped == s.processed + s.skipped + |evs|
            && t.processed >= s.processed
            && |t.rows| == |s.rows| + (t.processed - s.processed)
            && t.rows[..|s.rows|] == s.rows
            && t.nextId == s.nextId + (t.processed - s.processed)
    decreases |evs|
  {
    if evs != [] {
      ReplayCounts(s, jobId, evs[..|evs| - 1], ext);
    }
  }

  /** After a run, every event with documents is in the ledger. */
  lemma {:induction false} RunMarksEvents(s: RunState, jobId: int, evs: seq<PersonEvent>, ext: Externals)
    ensures forall i :: 0 <= i < |evs| && evs[i].documents != [] ==> HasEvent(Replay(s, jobId, evs, ext).rows, evs[i].id)
    decreases |evs|
  {
    if evs != [] {
      var init := evs[..|evs| - 1];
      var last := evs[|evs| - 1];
      var mid := Replay(s, jobId, init, ext);
      RunMarksEvents(s, jobId, init, ext);
      var t := EventStep(mid, jobId, last, ext);
      forall i | 0 <= i < |evs| && evs[i].documents != []
        ensures HasEvent(t.rows, evs[i].id)
      {
        if !(HasEvent(mid.rows, last.id) || last.documents == []) {
          var r := Row(mid.nextId, last.id, jobId, last.personId);
          HasEventAppend(mid.rows, r, evs[i].id);
          if i < |evs| - 1 {
            assert init[i] == evs[i];
          }
        } else if i < |evs| - 1 {
          assert init[i] == evs[i];
        }
      }
    }
  }

  /** Events already in the ledger or without documents are only counted
      as skipped: no row, no description changes. */
  lemma {:induction false} SettledEventsAreSkipped(s: RunState, jobId: int, evs: seq<PersonEvent>, ext: Externals)
    requires forall i :: 0 <= i < |evs| ==> evs[i].documents == [] || HasEvent(s.rows, evs[i].id)
    ensures Replay(s, jobId, evs, ext) == s.(skipped := s.skipped + |evs|)
    decreases |evs|
  {
    if evs != [] {
      var init := evs[..|evs| - 1];
      assert forall i :: 0 <= i < |init| ==> init[i] == evs[i];
      SettledEventsAreSkipped(s, jobId, init, ext);
    }
  }

  /** A second run over the same events, with no stop requested, processes
      nothing: every event is skipped and nothing is written. */
  lemma SecondRunProcessesNothing(s: RunState, jobId: int, evs: seq<PersonEvent>, ext: Externals)
    ensures var t := Replay(s, jobId, evs, ext);
            var u := Replay(t.(processed := 0, skipped := 0), jobId, evs, ext);
            u.processed == 0 && u.skipped == |evs| && u.rows == t.rows && u.descriptions == t.descriptions
  {
    var t := Replay(s, jobId, evs, ext);
    RunMarksEvents(s, jobId, evs, ext);
    SettledEventsAreSkipped(t.(processed := 0, skipped := 0), jobId, evs, ext);
  }

  /** The documents of one event touch only that person's description and
      never drop a description. When every lookup succeeds and the
      descriptions are plain text, a summary only extends a description:
      the old text (or "") is a prefix of the new one. */
  lemma {:induction false} DocsFoldExtends(descriptions: map<int, string>, ev: PersonEvent, docs: seq<Document>, ext: Externals)
    ensures var d := DocsFold(descriptions, ev, docs, ext);
            && descriptions.Keys <= d.Keys
            && (forall p :: p != ev.personId ==> (p in d <==> p in descriptions))
            && (forall p :: p != ev.personId && p in d ==> d[p] == descriptions[p])
            && (PlainText(ext) ==> forall p :: p in d ==> StartsWith(d[p], Describe(descriptions, p)))
    decreases |docs|
  {
    if docs != [] {
      var mid := DocsFold(descriptions, ev, docs[..|docs| - 1], ext);
      DocsFoldExtends(descriptions, ev, docs[..|docs| - 1], ext);
      var d := DocStep(mid, ev, docs[|docs| - 1], ext);
      if PlainText(ext) {
        forall p | p in d
          ensures StartsWith(d[p], Describe(descriptions, p))
        {
          var old0 := Describe(descriptions, p);
          assert StartsWith(Describe(mid, p), old0);
          if d[p] != Describe(mid, p) {
            var m := Describe(mid, p);
            assert ext.getText(m) == m;
            assert PersonDetails(mid, p, ext) == m;
            assert d[p][..|m|] == m;
            assert d[p][..|old0|] == m[..|old0|];
          }
        }
      }
    }
  }

  /** Over a whole run no description disappears, and, when every lookup
      succeeds and the descriptions are plain text, none shrinks. */
  lemma {:induction false} RunExtendsDescriptions(s: RunState, jobId: int, evs: seq<PersonEvent>, ext: Externals)
    ensures var d := Replay(s, jobId, evs, ext).descriptions;
            && s.descriptions.Keys <= d.Keys
            && (PlainText(ext) ==> forall p :: p in d ==> StartsWith(d[p], Describe(s.descriptions, p)))
    decreases |evs|
  {
    if evs != [] {
      var mid := Replay(s, jobId, evs[..|evs| - 1], ext);
      RunExtendsDescriptions(s, jobId, evs[..|evs| - 1], ext);
      var last := evs[|evs| - 1];
      if !(HasEvent(mid.rows, last.id) || last.documents == []) {
        var d := DocsFold(mid.descriptions, last, last.documents, ext);
        DocsFoldExtends(mid.descriptions, last, last.documents, ext);
        if PlainText(ext) {
          forall p | p in d
            ensures StartsWith(d[p], Describe(s.descriptions, p))
          {
            var a, b := Describe(s.descriptions, p), Describe(mid.descriptions, p);
            assert StartsWith(b, a);
            assert d[p][..|b|] == b;
            assert d[p][..|a|] == b[..|a|];
          }
        }
      }
    }
  }

  // ---------------------------------------------------------------------
  // A failed lookup overwrites the description

  /** The text of a stored description as `get_person_details` returns it
      when its GET succeeds. */
  function StoredText(descriptions: map<int, string>, personId: int, ext: Externals): string
  {
    var d := Describe(descriptions, personId);
    if d == [] then d else ext.getText(d)
  }

  /** As written: when the GET of `get_person_details` fails it returns "",
      and the PUT replaces the person's description by the heading and the
      summary alone, so the old text is lost. */
  lemma FailedLookupDropsDescription(descriptions: map<int, string>, ev: PersonEvent, doc: Document, ext: Externals)
    requires !ext.personFound(ev.personId)
    requires var path := ext.download(ev.id, doc.id, Filename(ev.personId, doc.id));
             && path.Some? && path.value != []
             && ext.summarize(path.value).Some? && ext.summarize(path.value).value != []
    requires StoredText(descriptions, ev.personId, ext) != [] && StoredText(descriptions, ev.personId, ext)[0] != '\n'
    ensures var path := ext.download(ev.id, doc.id, Filename(ev.personId, doc.id));
            DocStep(descriptions, ev, doc, ext)[ev.personId] == SummaryHeading + ext.summarize(path.value).value
    ensures !StartsWith(DocStep(descriptions, ev, doc, ext)[ev.personId], StoredText(descriptions, ev.personId, ext))
  {
    var t := StoredText(descriptions, ev.personId, ext);
    var n := DocStep(descriptions, ev, doc, ext)[ev.personId];
    assert n[0] == '\n';
  }

  /** The document step as evidently intended: a failed lookup leaves the
      description alone instead of overwriting it. */
  function DocStepKeepingText(descriptions: map<int, string>, ev: PersonEvent, doc: Document, ext: Externals): map<int, string>
  {
    if ext.personFound(ev.personId) then DocStep(descriptions, ev, doc, ext) else descriptions
  }

  /** With the guard, a step either changes nothing or rewrites only the
      person's description, which then starts with the text of the old one. */
  lemma DocStepKeepsText(descriptions: map<int, string>, ev: PersonEvent, doc: Document, ext: Externals)
    ensures var d := DocStepKeepingText(descriptions, ev, doc, ext);
            || d == descriptions
            || (&& d == descriptions[ev.personId := d[ev.personId]]
                && StartsWith(d[ev.personId], StoredText(descriptions, ev.personId, ext)))
  {
    var d := DocStepKeepingText(descriptions, ev, doc, ext);
    if d != descriptions {
      var t := StoredText(descriptions, ev.personId, ext);
      assert PersonDetails(descriptions, ev.personId, ext) == t;
      assert d[ev.personId][..|t|] == t;
    }
  }

  /** The ledger gate keeps event ids unique: a run never marks an event
      twice, nor one that was already marked. */
  lemma {:induction false} RunKeepsEventsDistinct(s: RunState, jobId: int, evs: seq<PersonEvent>, ext: Externals)
    requires DistinctEvents(s.rows)
    ensures DistinctEvents(Replay(s, jobId, evs, ext).rows)
    decreases |evs|
  {
    if evs != [] {
      var mid := Replay(s, jobId, evs[..|evs| - 1], ext);
      RunKeepsEventsDistinct(s, jobId, evs[..|evs| - 1], ext);
      var last := evs[|evs| - 1];
      if !(HasEvent(mid.rows, last.id) || last.documents == []) {
        HasEventIff(mid.rows, last.id);
        var rows := mid.rows + [Row(mid.nextId, last.id, jobId, last.personId)];
        assert forall i :: 0 <= i < |mid.rows| ==> rows[i] == mid.rows[i];
      }
    }
  }
}
