/**
 * `POST /files/upload`: the older upload endpoint. It reads the file exactly as the ingestion
 * endpoint does but stores no environment.
 */
module FileManagement {
  import opened Wrappers
  import opened Ingest

  /**
   * `upload_file`: the rows of every readable line of `content` under the new uuid, the file's
   * name, the given dates and the time of the upload, with no environment; or the error of the
   * first line whose count is no integer, and then no row at all.
   */
  method UploadFile(content: string, fromDate: int, toDate: int, filename: string, now: int, newUuid: string)
    returns (r: Result<seq<Entry>>)
    ensures r == Ingested(Batch(newUuid, filename, fromDate, toDate, now, None), Lines(content))
    ensures r.Ok? ==> forall e :: e in r.value ==>
      && e.uploadUuid == newUuid && e.filename == filename && e.createdAt == now
      && e.fromDate == fromDate && e.toDate == toDate && e.environment == None
  {
    var b := Batch(newUuid, filename, fromDate, toDate, now, None);
    r := UploadLines(b, Lines(content));
    if r.Ok? {
      IngestedRows(b, Lines(content));
    }
  }
}
