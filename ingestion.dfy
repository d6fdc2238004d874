/**
 * The ingestion endpoints: `upload-file`, which stores one row per `prefix count` line of a
 * file under a fresh upload uuid and an optional environment, and `event`, which stores a
 * single row with defaults for the fields the caller leaves out. The current time and the
 * fresh uuid are parameters.
 */
module Ingestion {
  import opened Wrappers
  import opened Seqs
  import opened Ingest

  /**
   * `upload_file`: the rows of every readable line of `content`, all under the new uuid, the
   * file's name, the given dates and environment and the time of the upload; or the error of
   * the first line whose count is no integer, and then no row at all.
   */
  method UploadFile(content: string, fromDate: int, toDate: int, environment: Option<string>,
                    filename: string, now: int, newUuid: string) returns (r: Result<seq<Entry>>)
    ensures r == Ingested(Batch(newUuid, filename, fromDate, toDate, now, environment), Lines(content))
    ensures r.Ok? ==> forall e :: e in r.value ==>
      && e.uploadUuid == newUuid && e.filename == filename && e.createdAt == now
      && e.fromDate == fromDate && e.toDate == toDate && e.environment == environment
  {
    var b := Batch(newUuid, filename, fromDate, toDate, now, environment);
    r := UploadLines(b, Lines(content));
    if r.Ok? {
      IngestedRows(b, Lines(content));
    }
  }

  /** The body of an event; only the prefix is required and the count defaults to 1. */
  datatype EventRequest = EventRequest(prefix: string, errorCount: int, filename: Option<string>,
                                       fromDate: Option<int>, toDate: Option<int>,
                                       uploadUuid: Option<string>, environment: Option<string>)

  /** An event that names only its prefix. */
  function BareEvent(prefix: string): EventRequest {
    EventRequest(prefix, 1, None, None, None, None, None)
  }

  /**
   * `receive_event`: the row an event stores. A missing filename or upload uuid becomes
   * `event`, missing dates become the time of arrival `now`; the rest is copied.
   */
  function ReceiveEvent(payload: EventRequest, now: int, event: string): (e: Entry)
    ensures e.createdAt == now
    ensures e.prefix == payload.prefix && e.errorCount == payload.errorCount
    ensures e.environment == payload.environment
    ensures payload.filename.Some? ==> e.filename == payload.filename.value
    ensures payload.uploadUuid.Some? ==> e.uploadUuid == payload.uploadUuid.value
    ensures payload.fromDate.Some? ==> e.fromDate == payload.fromDate.value
    ensures payload.toDate.Some? ==> e.toDate == payload.toDate.value
    ensures payload.filename.None? ==> e.filename == event
    ensures payload.uploadUuid.None? ==> e.uploadUuid == event
    ensures payload.fromDate.None? ==> e.fromDate == now
    ensures payload.toDate.None? ==> e.toDate == now
  {
    Entry(payload.uploadUuid.GetOr(event), payload.filename.GetOr(event),
          payload.fromDate.GetOr(now), payload.toDate.GetOr(now), now,
          payload.prefix, payload.environment, payload.errorCount)
  }

  /** An event with only a prefix is one error, filed under `event` and dated at its arrival. */
  lemma BareEventDefaults(prefix: string, now: int, event: string)
    ensures ReceiveEvent(BareEvent(prefix), now, event) == Entry(event, event, now, now, now, prefix, None, 1)
  {
  }

  /**
   * An event stores the row that uploading a one-line file `prefix count` would store, with the
   * event's fields (or their defaults) as the upload's.
   */
  lemma EventIsOneLineUpload(payload: EventRequest, now: int, event: string)
    requires Storable(payload.prefix)
    ensures
      var b := Batch(payload.uploadUuid.GetOr(event), payload.filename.GetOr(event),
                     payload.fromDate.GetOr(now), payload.toDate.GetOr(now), now, payload.environment);
      Ingested(b, [FormatLine(payload.prefix, payload.errorCount)]) == Ok([ReceiveEvent(payload, now, event)])
  {
    FormatLineRoundTrip(payload.prefix, payload.errorCount);
    var b := Batch(payload.uploadUuid.GetOr(event), payload.filename.GetOr(event),
                   payload.fromDate.GetOr(now), payload.toDate.GetOr(now), now, payload.environment);
    var lines := [FormatLine(payload.prefix, payload.errorCount)];
    assert Map(ParseLine, lines) == [Ok(Some(Parsed(payload.prefix, payload.errorCount)))];
    CollectOne(b, Ok(Some(Parsed(payload.prefix, payload.errorCount))));
  }
}
