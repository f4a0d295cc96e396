/** The records the services exchange: the pydantic shapes of the backend
    as plain values, plus the JSON values the Gemini reply and a saved
    summary are made of. */
module Models {
  import opened Wrappers

  /** A page result as produced by brand detection, before it is timed. */
  datatype BrandDetectionCreate = BrandDetectionCreate(pageNumber: int, brandsDetected: seq<string>)

  /** A stored page result; every field is required. */
  datatype BrandDetection = BrandDetection(
    pageNumber: int,
    brandsDetected: seq<string>,
    processingTime: real,
    status: string)

  /** A document as the store returns it; `results` is ascending by page. */
  datatype Document = Document(
    id: string,
    filename: string,
    totalPages: int,
    uploadDate: string,
    status: string,
    results: seq<BrandDetection>)

  /** The partial update accepted by the store: absent fields stay unchanged. */
  datatype DocumentUpdate = DocumentUpdate(filename: Option<string>, status: Option<string>)

  /** The processing-status view of a document. */
  datatype ProcessingStatus = ProcessingStatus(
    documentId: string,
    status: string,
    totalPages: int,
    processedPages: nat,
    failedPages: nat,
    progressPercentage: real,
    pageStatus: map<int, string>)

  const Processing: string := "processing"
  const Completed: string := "completed"
  const Failed: string := "failed"
  const CompletedWithErrors: string := "completed_with_errors"
  const Cancelled: string := "cancelled"

  /** A JSON value (RFC 8259); objects are keyed by string. */
  datatype Json =
    | JNull
    | JBool(b: bool)
    | JNumber(n: real)
    | JString(s: string)
    | JArray(items: seq<Json>)
    | JObject(fields: map<string, Json>)

  /** Python truthiness of the decoded value. */
  predicate Truthy(j: Json) {
    match j
    case JNull => false
    case JBool(b) => b
    case JNumber(n) => n != 0.0
    case JString(s) => s != []
    case JArray(items) => items != []
    case JObject(fields) => fields != map[]
  }
}
