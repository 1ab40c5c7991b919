/**
 * The outcome logic of the HTTP calls: the two-request document upload and the URL fetch.
 * Requests themselves are not modelled; the caller supplies what each request met with.
 */
module Upload {
  import opened Results

  /** What one HTTP request met with: a transport-level error, or a response with a status. */
  datatype HttpOutcome = TransportError | Response(status: int)

  const StatusOK: int := 200

  /** The source compares against http.StatusOK exactly. */
  predicate IsOk(h: HttpOutcome) {
    h.Response? && h.status == StatusOK
  }

  /** The arguments of one uploadDocument call: the file, the tag and the name sent for it. */
  datatype Attempt = Attempt(file: string, tag: string, filename: string)

  /**
   * What the steps of one uploadDocument call meet with: opening and copying the file, the
   * multipart POST, decoding its JSON body (with both fields present), and the metadata POST.
   */
  datatype UploadCall = UploadCall(fileReadable: bool, binary: HttpOutcome, responseDecoded: bool, metadata: HttpOutcome)

  /** The stage an upload failed at. */
  datatype Stage = FileUnreadable | BinaryRejected | ResponseUnreadable | MetadataUnsent

  /** Failed: uploadDocument returned an error. Stored: it returned nil. */
  datatype UploadResult = Failed(stage: Stage) | Stored(metadataRecorded: bool)

  /** uploadDocument: the first failing step decides; a rejected metadata POST is only a warning. */
  function UploadDocument(c: UploadCall): UploadResult {
    if !c.fileReadable then Failed(FileUnreadable)
    else if !IsOk(c.binary) then Failed(BinaryRejected)
    else if !c.responseDecoded then Failed(ResponseUnreadable)
    else if c.metadata.TransportError? then Failed(MetadataUnsent)
    else Stored(IsOk(c.metadata))
  }

  /** uploadDocument returns nil exactly when the binary upload succeeded and the metadata POST got any response. */
  lemma UploadCountsAsSuccess(c: UploadCall)
    ensures UploadDocument(c).Stored? <==>
      c.fileReadable && IsOk(c.binary) && c.responseDecoded && c.metadata.Response?
    ensures UploadDocument(c).Stored? ==> (UploadDocument(c).metadataRecorded <==> IsOk(c.metadata))
  {
  }

  /** The lenient case: a rejected metadata POST still leaves the upload counted as stored. */
  lemma MetadataRejectionIsNotFatal(status: int)
    requires status != 200
    ensures UploadDocument(UploadCall(true, Response(200), true, Response(status))) == Stored(false)
    ensures UploadDocument(UploadCall(true, Response(status), true, Response(200))) == Failed(BinaryRejected)
  {
  }

  /** What the GET of a URL source met with: the response and, if it could be read, the body. */
  datatype Fetch = Fetch(response: HttpOutcome, body: Option<string>)

  /** fetchUrlContent: the body of a 200 response that could be read in full, else an error. */
  function FetchUrlContent(url: string, f: Fetch): Result<string> {
    if f.response.TransportError? then Err(FetchFailed(url))
    else if f.response.status != StatusOK then Err(FetchFailed(url))
    else if f.body.None? then Err(FetchFailed(url))
    else Ok(f.body.value)
  }

  /** Only status 200 with a readable body yields content; any other 2xx status is an error. */
  lemma FetchNeedsExactly200(url: string, f: Fetch)
    ensures FetchUrlContent(url, f).Ok? <==> IsOk(f.response) && f.body.Some?
    ensures FetchUrlContent(url, f).Ok? ==> FetchUrlContent(url, f).value == f.body.value
    ensures FetchUrlContent(url, f).Err? ==> FetchUrlContent(url, f).error == FetchFailed(url)
    ensures FetchUrlContent(url, Fetch(Response(201), f.body)).Err?
  {
  }
}
