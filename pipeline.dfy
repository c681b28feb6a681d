/**
 * The per-file pipeline (validate the request, download the audio, run the
 * diarized session, store the transcript) and the sweep over every
 * unprocessed file. The collaborators (blob storage, the speech service, the
 * JSON encoder, the fetch query and the speech credentials) are the fields of
 * a `Services` value; every side-effecting call is recorded in a call log.
 */
module Pipeline {
  import opened Wrappers
  import opened Text
  import opened Session
  import opened Sequences

  /** Document ids are opaque keys of the file table. */
  type DocId = string

  const MissingAudioUrl: string := "Missing 'audio_url' argument"
  const OnlyWavAccepted: string := "Only .wav files are accepted"
  const DownloadFailedPrefix: string := "Failed to download blob via managed identity: "
  const SpeechConfigMissing: string := "SPEECH_KEY or SPEECH_REGION not set"
  const NoSpeechRecognized: string := "No speech recognized"

  /** The "arguments" object of a request: string values, or None for JSON null. */
  type Arguments = map<string, Option<string>>

  /** A request payload: its top-level keys, each holding an object. */
  type Payload = map<string, Arguments>

  /** payload.get("arguments", {}).get("audio_url"), with JSON null read as absent. */
  function AudioUrl(payload: Payload): Option<string>
  {
    var arguments := if "arguments" in payload then payload["arguments"] else map[];
    if "audio_url" in arguments then arguments["audio_url"] else None
  }

  /** The request the sweep builds for one file: {"arguments": {"audio_url": url}}. */
  function PayloadFor(blobUrl: Option<string>): (payload: Payload)
    ensures AudioUrl(payload) == blobUrl
  {
    map["arguments" := map["audio_url" := blobUrl]]
  }

  /** What blob storage answers for one URL: the scratch file it wrote, or the exception text. */
  datatype Fetch = Fetched(path: string) | FetchFailed(reason: string)

  /** One row of the unprocessed-files query. */
  datatype Row = Row(docId: DocId, blobUrl: Option<string>)

  /**
   * The collaborators. `download` and `session` give the answer of blob
   * storage for a URL and the event stream of the speech service for a
   * scratch file; `serialize` is the JSON encoding of a transcript; `pending`
   * is what the unprocessed-files query returns.
   */
  datatype Services = Services(
    speechKey: Option<string>,
    speechRegion: Option<string>,
    download: string -> Fetch,
    session: string -> seq<Event>,
    serialize: seq<Segment> -> string,
    pending: seq<Row>)

  /** A side-effecting call on a collaborator. */
  datatype Call =
    | Download(url: string)
    | Transcribe(path: string)
    | RemoveFile(path: string)
    | Insert(docId: DocId, transcript: string)
    | MarkProcessed(docId: DocId)

  /** What the pipeline returns: the stored transcript JSON, or the message of {"error": ...}. */
  datatype Outcome = Transcript(json: string) | Error(message: string)

  /** The result of one pipeline run together with the calls it made, in order. */
  datatype Run = Run(outcome: Outcome, calls: seq<Call>)

  /** Both speech credentials are set and non-empty. */
  predicate Configured(svc: Services)
  {
    && svc.speechKey.Some? && svc.speechKey.value != []
    && svc.speechRegion.Some? && svc.speechRegion.value != []
  }

  /**
   * The request checks, in order: the audio URL must be present and
   * non-empty, then its lower-cased form must end in ".wav".
   */
  function Validate(payload: Payload): (r: Result<string, string>)
    ensures r == Failure(MissingAudioUrl) <==> AudioUrl(payload).None? || AudioUrl(payload).value == []
    ensures r == Failure(OnlyWavAccepted) <==>
              AudioUrl(payload).Some? && AudioUrl(payload).value != [] && !EndsWithWav(AudioUrl(payload).value)
    ensures r.Failure? ==> r.error == MissingAudioUrl || r.error == OnlyWavAccepted
    ensures r.Success? ==> AudioUrl(payload) == Some(r.value) && EndsWithWav(r.value)
  {
    match AudioUrl(payload)
    case None => Failure(MissingAudioUrl)
    case Some(url) =>
      if url == [] then Failure(MissingAudioUrl)
      else if !EndsWithWav(url) then Failure(OnlyWavAccepted)
      else Success(url)
  }

  /**
   * One run of the per-file pipeline for document `docId`: its outcome and
   * the collaborator calls it makes.
   */
  function Diarize(svc: Services, docId: DocId, payload: Payload): Run
  {
    match Validate(payload)
    case Failure(message) => Run(Error(message), [])
    case Success(url) =>
      match svc.download(url)
      case FetchFailed(reason) => Run(Error(DownloadFailedPrefix + reason), [Download(url)])
      case Fetched(path) =>
        if !Configured(svc) then
          Run(Error(SpeechConfigMissing), [Download(url), RemoveFile(path)])
        else
          var segments := Captured(svc.session(path));
          var attempted := [Download(url), Transcribe(path), RemoveFile(path)];
          if segments == [] then
            Run(Error(NoSpeechRecognized), attempted)
          else
            var json := svc.serialize(segments);
            Run(Transcript(json), attempted + [Insert(docId, json)])
  }

  /** A rejected request is answered with the validation error and touches no collaborator. */
  lemma RejectedRequestTouchesNothing(svc: Services, docId: DocId, payload: Payload)
    requires Validate(payload).Failure?
    ensures Diarize(svc, docId, payload) == Run(Error(Validate(payload).error), [])
  {
  }

  /** An accepted request is downloaded first, whatever follows. */
  lemma AcceptedRequestDownloadsFirst(svc: Services, docId: DocId, payload: Payload)
    requires Validate(payload).Success?
    ensures Diarize(svc, docId, payload).calls != []
    ensures Diarize(svc, docId, payload).calls[0] == Download(Validate(payload).value)
  {
  }

  /** The pipeline never marks a file processed; that is the sweep's job. */
  lemma DiarizeNeverMarks(svc: Services, docId: DocId, payload: Payload)
    ensures NoMarks(Diarize(svc, docId, payload).calls)
  {
  }

  /**
   * At most one insert, as the last call, for the document being processed,
   * storing exactly the transcript the pipeline returns; a returned
   * transcript has always been inserted.
   */
  lemma InsertIsLastAndReturned(svc: Services, docId: DocId, payload: Payload)
    ensures var r := Diarize(svc, docId, payload);
            forall i :: 0 <= i < |r.calls| && r.calls[i].Insert? ==>
              i == |r.calls| - 1 && r.outcome.Transcript? && r.calls[i] == Insert(docId, r.outcome.json)
    ensures var r := Diarize(svc, docId, payload);
            r.outcome.Transcript? ==> r.calls != [] && r.calls[|r.calls| - 1] == Insert(docId, r.outcome.json)
  {
  }

  /** Every insert of a log is its last call and stores document docId. */
  predicate InsertsLastFor(log: seq<Call>, docId: DocId)
  {
    forall k :: 0 <= k < |log| && log[k].Insert? ==> k == |log| - 1 && log[k].docId == docId
  }

  /** The pipeline's log inserts, if at all, as its last call and for its own document. */
  lemma DiarizeInsertsLast(svc: Services, docId: DocId, payload: Payload)
    ensures InsertsLastFor(Diarize(svc, docId, payload).calls, docId)
  {
    InsertIsLastAndReturned(svc, docId, payload);
  }

  /**
   * A transcript is returned exactly when the request is valid, the download
   * succeeds, the credentials are set and the session captures speech; it is
   * the encoding of the captured segments.
   */
  lemma TranscriptIffAllStepsSucceed(svc: Services, docId: DocId, payload: Payload)
    ensures var r := Diarize(svc, docId, payload);
            r.outcome.Transcript? <==>
              && Validate(payload).Success?
              && svc.download(Validate(payload).value).Fetched?
              && Configured(svc)
              && Captured(svc.session(svc.download(Validate(payload).value).path)) != []
    ensures var r := Diarize(svc, docId, payload);
            r.outcome.Transcript? ==>
              r.outcome.json == svc.serialize(Captured(svc.session(svc.download(Validate(payload).value).path)))
  {
  }

  /** A failed download is reported, not raised, and nothing else is called. */
  lemma DownloadFailureReported(svc: Services, docId: DocId, payload: Payload)
    requires Validate(payload).Success?
    requires svc.download(Validate(payload).value).FetchFailed?
    ensures Diarize(svc, docId, payload) ==
              Run(Error(DownloadFailedPrefix + svc.download(Validate(payload).value).reason),
                  [Download(Validate(payload).value)])
  {
  }

  /**
   * Missing credentials are only noticed after the download: the scratch
   * file is removed, no session starts and nothing is inserted.
   */
  lemma MissingCredentialsAfterDownload(svc: Services, docId: DocId, payload: Payload)
    requires Validate(payload).Success?
    requires svc.download(Validate(payload).value).Fetched?
    requires !Configured(svc)
    ensures var url := Validate(payload).value;
            Diarize(svc, docId, payload) ==
              Run(Error(SpeechConfigMissing), [Download(url), RemoveFile(svc.download(url).path)])
  {
  }

  /** A session that captures nothing yields the "No speech recognized" error and no insert. */
  lemma SilentSessionNotStored(svc: Services, docId: DocId, payload: Payload)
    requires Validate(payload).Success?
    requires svc.download(Validate(payload).value).Fetched?
    requires Configured(svc)
    requires Captured(svc.session(svc.download(Validate(payload).value).path)) == []
    ensures Diarize(svc, docId, payload).outcome == Error(NoSpeechRecognized)
    ensures forall c :: c in Diarize(svc, docId, payload).calls ==> !c.Insert?
  {
  }

  /** Matching is case-insensitive: an upper-case ".WAV" URL passes validation. */
  lemma UpperCaseWavAccepted()
    ensures Validate(PayloadFor(Some("https://x/y/X.WAV"))) == Success("https://x/y/X.WAV")
  {
  }

  /** An ".mp3" URL is rejected with no collaborator call. */
  lemma Mp3Rejected(svc: Services, docId: DocId)
    ensures Diarize(svc, docId, PayloadFor(Some("https://x/y/call2.mp3"))) == Run(Error(OnlyWavAccepted), [])
  {
  }

  /** A log without mark-processed calls. */
  predicate NoMarks(log: seq<Call>)
  {
    forall k :: 0 <= k < |log| ==> !log[k].MarkProcessed?
  }

  /** The calls the sweep makes for one fetched row: its pipeline run, then its mark. */
  function RowCalls(svc: Services, row: Row): seq<Call>
  {
    Diarize(svc, row.docId, PayloadFor(row.blobUrl)).calls + [MarkProcessed(row.docId)]
  }

  /** The pipeline log of each fetched row, in fetch order. */
  function Runs(svc: Services, rows: seq<Row>): (runs: seq<seq<Call>>)
    ensures |runs| == |rows|
  {
    seq(|rows|, i requires 0 <= i < |rows| => Diarize(svc, rows[i].docId, PayloadFor(rows[i].blobUrl)).calls)
  }

  /**
   * The log of the first n iterations of a sweep over `rows`, given the
   * pipeline log of each row: each row's log followed by its mark.
   */
  function SweepLog(runs: seq<seq<Call>>, rows: seq<Row>, n: nat): seq<Call>
    requires |runs| == |rows| && n <= |rows|
  {
    if n == 0 then [] else SweepLog(runs, rows, n - 1) + (runs[n - 1] + [MarkProcessed(rows[n - 1].docId)])
  }

  /** The calls of the first n iterations of a sweep over `rows`, in fetch order. */
  function SweepCalls(svc: Services, rows: seq<Row>, n: nat): seq<Call>
    requires n <= |rows|
  {
    SweepLog(Runs(svc, rows), rows, n)
  }

  /** One more iteration of the sweep appends that row's calls. */
  lemma SweepCallsSnoc(svc: Services, rows: seq<Row>, n: nat)
    requires n < |rows|
    ensures SweepCalls(svc, rows, n + 1) == SweepCalls(svc, rows, n) + RowCalls(svc, rows[n])
  {
  }

  /** A log that holds the first n iterations holds the first n + 1 after the next row's calls. */
  lemma SweepStep(log: seq<Call>, svc: Services, rows: seq<Row>, n: nat)
    requires n < |rows|
    ensures (log + SweepCalls(svc, rows, n)) + RowCalls(svc, rows[n]) == log + SweepCalls(svc, rows, n + 1)
  {
    SweepCallsSnoc(svc, rows, n);
    AppendAssoc(log, SweepCalls(svc, rows, n), RowCalls(svc, rows[n]));
  }

  /** The ids of the mark-processed calls of a log, in order. */
  function MarkedIds(calls: seq<Call>): (ids: seq<DocId>)
    ensures |ids| <= |calls|
  {
    if calls == [] then []
    else (if calls[0].MarkProcessed? then [calls[0].docId] else []) + MarkedIds(calls[1..])
  }

  /** The ids of a sequence of rows, in order. */
  function DocIds(rows: seq<Row>): (ids: seq<DocId>)
    ensures |ids| == |rows|
    ensures forall i :: 0 <= i < |rows| ==> ids[i] == rows[i].docId
  {
    seq(|rows|, i requires 0 <= i < |rows| => rows[i].docId)
  }

  /** The marks of a concatenation are the marks of each part. */
  lemma {:induction false} MarkedIdsAppend(a: seq<Call>, b: seq<Call>)
    ensures MarkedIds(a + b) == MarkedIds(a) + MarkedIds(b)
  {
    if a == [] {
      assert a + b == b;
    } else {
      assert (a + b)[0] == a[0] && (a + b)[1..] == a[1..] + b;
      MarkedIdsAppend(a[1..], b);
    }
  }

  /** A log without mark-processed calls marks nothing. */
  lemma {:induction false} NoMarkedIds(calls: seq<Call>)
    requires NoMarks(calls)
    ensures MarkedIds(calls) == []
  {
    if calls != [] {
      assert NoMarks(calls[1..]) by {
        forall k | 0 <= k < |calls[1..]| ensures !calls[1..][k].MarkProcessed? {
          assert calls[1..][k] == calls[k + 1];
        }
      }
      NoMarkedIds(calls[1..]);
    }
  }

  /** The ids of one more row. */
  lemma DocIdsSnoc(rows: seq<Row>, n: nat)
    requires n < |rows|
    ensures DocIds(rows[..n + 1]) == DocIds(rows[..n]) + [rows[n].docId]
  {
    var a := DocIds(rows[..n + 1]);
    var b := DocIds(rows[..n]) + [rows[n].docId];
    assert |a| == |b|;
    forall i | 0 <= i < |a| ensures a[i] == b[i] {
      assert rows[..n + 1][i] == rows[i];
      if i < n {
        assert rows[..n][i] == rows[i];
      }
    }
  }

  /** When no row's own log marks anything, the sweep marks every row once, in order. */
  lemma {:induction false} SweepLogMarks(runs: seq<seq<Call>>, rows: seq<Row>, n: nat)
    requires |runs| == |rows| && n <= |rows|
    requires forall i :: 0 <= i < |runs| ==> NoMarks(runs[i])
    ensures MarkedIds(SweepLog(runs, rows, n)) == DocIds(rows[..n])
  {
    if n == 0 {
      assert rows[..0] == [];
    } else {
      var mark := [MarkProcessed(rows[n - 1].docId)];
      SweepLogMarks(runs, rows, n - 1);
      NoMarkedIds(runs[n - 1]);
      MarkedIdsAppend(runs[n - 1], mark);
      MarkedIdsAppend(SweepLog(runs, rows, n - 1), runs[n - 1] + mark);
      AppendEmpty(MarkedIds(mark));
      DocIdsSnoc(rows, n - 1);
    }
  }

  /**
   * Every fetched row is marked processed exactly once, in fetch order,
   * whatever its pipeline returned; nothing else is marked.
   */
  lemma SweepMarksEveryRow(svc: Services, rows: seq<Row>, n: nat)
    requires n <= |rows|
    ensures MarkedIds(SweepCalls(svc, rows, n)) == DocIds(rows[..n])
  {
    var runs := Runs(svc, rows);
    forall i | 0 <= i < |runs| ensures NoMarks(runs[i]) {
      DiarizeNeverMarks(svc, rows[i].docId, PayloadFor(rows[i].blobUrl));
    }
    SweepLogMarks(runs, rows, n);
  }

  /**
   * When every row's own log inserts only as its last call and for that
   * row, each insert of the sweep is followed by the mark of the same
   * document with no other mark in between.
   */
  lemma {:induction false} SweepLogInsertMarked(runs: seq<seq<Call>>, rows: seq<Row>, n: nat, j: nat)
    requires |runs| == |rows| && n <= |rows|
    requires forall i :: 0 <= i < |runs| ==> InsertsLastFor(runs[i], rows[i].docId)
    requires j < |SweepLog(runs, rows, n)| && SweepLog(runs, rows, n)[j].Insert?
    ensures var log := SweepLog(runs, rows, n);
            exists m :: j < m < |log|
                        && log[m] == MarkProcessed(log[j].docId)
                        && forall l :: j < l < m ==> !log[l].MarkProcessed?
  {
    var log := SweepLog(runs, rows, n);
    var before := SweepLog(runs, rows, n - 1);
    var run := runs[n - 1];
    var mark := MarkProcessed(rows[n - 1].docId);
    assert log == before + (run + [mark]);
    if j < |before| {
      SweepLogInsertMarked(runs, rows, n - 1, j);
      var m :| j < m < |before|
               && before[m] == MarkProcessed(before[j].docId)
               && forall l :: j < l < m ==> !before[l].MarkProcessed?;
      assert log[m] == before[m] && log[j] == before[j];
      assert forall l :: j < l < m ==> log[l] == before[l];
    } else {
      var k := j - |before|;
      assert log[j] == (run + [mark])[k];
      assert log[j] == run[k];
      assert k == |run| - 1;
      assert log[j + 1] == mark;
    }
  }

  /**
   * Every insert of a sweep is followed by the mark of the same document,
   * with no other mark in between.
   */
  lemma InsertFollowedByItsMark(svc: Services, rows: seq<Row>, n: nat, j: nat)
    requires n <= |rows|
    requires j < |SweepCalls(svc, rows, n)| && SweepCalls(svc, rows, n)[j].Insert?
    ensures var calls := SweepCalls(svc, rows, n);
            exists m :: j < m < |calls|
                        && calls[m] == MarkProcessed(calls[j].docId)
                        && forall l :: j < l < m ==> !calls[l].MarkProcessed?
  {
    var runs := Runs(svc, rows);
    forall i | 0 <= i < |runs| ensures InsertsLastFor(runs[i], rows[i].docId) {
      DiarizeInsertsLast(svc, rows[i].docId, PayloadFor(rows[i].blobUrl));
    }
    SweepLogInsertMarked(runs, rows, n, j);
  }

  /**
   * The log of collaborator calls. Fetching is a read and is not logged;
   * every other call appends one entry.
   */
  class Backend {
    const services: Services
    var calls: seq<Call>

    constructor (services: Services)
      ensures this.services == services && calls == []
    {
      this.services := services;
      calls := [];
    }

    /** The unprocessed-files query. */
    method FetchUnprocessedFiles() returns (rows: seq<Row>)
      ensures rows == services.pending
    {
      rows := services.pending;
    }

    /** Downloads a blob into a fresh scratch file. */
    method DownloadBlob(url: string) returns (fetched: Fetch)
      modifies this
      ensures fetched == services.download(url)
      ensures calls == old(calls) + [Download(url)]
    {
      fetched := services.download(url);
      calls := calls + [Download(url)];
    }

    /** Starts a diarized session on a scratch file and returns its event stream. */
    method StartTranscribing(path: string) returns (events: seq<Event>)
      modifies this
      ensures events == services.session(path)
      ensures calls == old(calls) + [Transcribe(path)]
    {
      events := services.session(path);
      calls := calls + [Transcribe(path)];
    }

    /** Removes a scratch file. */
    method RemoveScratchFile(path: string)
      modifies this
      ensures calls == old(calls) + [RemoveFile(path)]
    {
      calls := calls + [RemoveFile(path)];
    }

    /** Stores a transcript for a document. */
    method InsertTranscript(docId: DocId, transcript: string)
      modifies this
      ensures calls == old(calls) + [Insert(docId, transcript)]
    {
      calls := calls + [Insert(docId, transcript)];
    }

    /** Flags a document as processed. */
    method MarkFileProcessed(docId: DocId)
      modifies this
      ensures calls == old(calls) + [MarkProcessed(docId)]
    {
      calls := calls + [MarkProcessed(docId)];
    }

    /** The per-file pipeline, step by step. */
    method SpeechToTextDiarize(docId: DocId, payload: Payload) returns (result: Outcome)
      modifies this
      ensures result == Diarize(services, docId, payload).outcome
      ensures calls == old(calls) + Diarize(services, docId, payload).calls
    {
      var audioUrl := AudioUrl(payload);
      if audioUrl.None? || audioUrl.value == [] {
        return Error(MissingAudioUrl);
      }
      var url := audioUrl.value;
      if !EndsWithWav(url) {
        return Error(OnlyWavAccepted);
      }
      var fetched := DownloadBlob(url);
      if fetched.FetchFailed? {
        return Error(DownloadFailedPrefix + fetched.reason);
      }
      var wavPath := fetched.path;
      if !Configured(services) {
        RemoveScratchFile(wavPath);
        return Error(SpeechConfigMissing);
      }
      var events := StartTranscribing(wavPath);
      var segments := CollectSegments(events);
      RemoveScratchFile(wavPath);
      if segments == [] {
        return Error(NoSpeechRecognized);
      }
      var segmentsJson := services.serialize(segments);
      InsertTranscript(docId, segmentsJson);
      return Transcript(segmentsJson);
    }

    /** One iteration of the sweep: the pipeline for the row, then its mark, whatever the result. */
    method ProcessFile(row: Row)
      modifies this
      ensures calls == old(calls) + RowCalls(services, row)
    {
      ghost var before := calls;
      var result := SpeechToTextDiarize(row.docId, PayloadFor(row.blobUrl));
      MarkFileProcessed(row.docId);
      AppendAssoc(before, Diarize(services, row.docId, PayloadFor(row.blobUrl)).calls, [MarkProcessed(row.docId)]);
    }

    /** The sweep: run the pipeline for every fetched row in order, then mark it processed. */
    method ProcessUnprocessedFiles()
      modifies this
      ensures calls == old(calls) + SweepCalls(services, services.pending, |services.pending|)
      ensures services.pending == [] ==> calls == old(calls)
    {
      var files := FetchUnprocessedFiles();
      AppendEmpty(calls);
      if files == [] {
        return;
      }
      for i := 0 to |files|
        invariant calls == old(calls) + SweepCalls(services, files, i)
      {
        ProcessFile(files[i]);
        SweepStep(old(calls), services, files, i);
      }
    }
  }
}
