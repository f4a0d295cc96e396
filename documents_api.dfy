// The document endpoints: the upload validators, the summary endpoint with
// its fallback, and the error policy of the handlers that wrap store calls.
// HTTP exceptions are values of `HttpFailure`; the store is the
// `FirebaseService` model.

module Api {
  import opened Wrappers
  import opened Strings
  import opened Sorting
  import opened Models
  import opened Config
  import opened FirebaseStore

  /** An `HTTPException`: status code and detail text. */
  datatype HttpFailure = HttpFailure(statusCode: int, detail: string)

  const BytesPerMb := 1024 * 1024

  // ---------------------------------------------------------------------
  // Validators

  /** `validate_file_size`: a limit of 0 (or less) disables the check; the
      message gives the limit in whole megabytes, rounded down. */
  function ValidateFileSize(s: Settings, fileSize: int): (r: Option<HttpFailure>)
    ensures r.Some? <==> s.maxFileSize > 0 && fileSize > s.maxFileSize
    ensures r.Some? ==> r.value.statusCode == 413
    ensures r.Some? ==> r.value.detail == "File too large. Maximum size is " + IntToString(s.maxFileSize / BytesPerMb) + "MB"
  {
    if s.maxFileSize > 0 && fileSize > s.maxFileSize then
      Some(HttpFailure(413, "File too large. Maximum size is " + IntToString(s.maxFileSize / BytesPerMb) + "MB"))
    else None
  }

  /** A size that fails the check makes every larger size fail too, and
      without a limit every size passes. */
  lemma FileSizeMonotone(s: Settings, small: int, large: int)
    requires small <= large
    ensures ValidateFileSize(s, small).Some? ==> ValidateFileSize(s, large).Some?
    ensures s.maxFileSize <= 0 ==> ValidateFileSize(s, large).None?
  {
  }

  /** The megabyte figure never overstates the limit. */
  lemma MbFigureRoundsDown(s: Settings)
    requires s.maxFileSize > 0
    ensures 0 <= (s.maxFileSize / BytesPerMb) * BytesPerMb <= s.maxFileSize < (s.maxFileSize / BytesPerMb + 1) * BytesPerMb
  {
  }

  predicate AllDots(s: string) {
    forall i :: 0 <= i < |s| ==> s[i] == '.'
  }

  /** `os.path.splitext` on a POSIX path: the extension starts at the last
      dot of the last path component, provided something other than dots
      precedes it in that component. */
  function SplitExt(p: string): (r: (string, string))
    ensures r.0 + r.1 == p
    ensures r.1 != [] ==> r.1[0] == '.'
    ensures forall j :: 1 <= j < |r.1| ==> r.1[j] != '.' && r.1[j] != '/'
  {
    var sep := LastIndexOf(p, '/');
    var dot := LastIndexOf(p, '.');
    if dot > sep && !AllDots(p[sep + 1..dot]) then (p[..dot], p[dot..])
    else (p, "")
  }

  /** `validate_file_extension`: the extension, lower-cased, must be one of
      the allowed ones. */
  function ValidateFileExtension(s: Settings, filename: string): (r: Option<HttpFailure>)
    ensures r.None? <==> Lower(SplitExt(filename).1) in s.allowedExtensions
    ensures r.Some? ==> r.value == HttpFailure(400, "Invalid file type. Allowed types: " + Join(s.allowedExtensions, ", "))
  {
    var ext := Lower(SplitExt(filename).1);
    if ext !in s.allowedExtensions then
      Some(HttpFailure(400, "Invalid file type. Allowed types: " + Join(s.allowedExtensions, ", ")))
    else None
  }

  /** With the default settings, a name that passes ends in ".pdf" in any
      case, and a slash does not come right before that suffix. */
  lemma PassingNameEndsInPdf(filename: string)
    requires ValidateFileExtension(Defaults, filename).None?
    ensures |filename| > 4 && Lower(filename[|filename| - 4..]) == ".pdf"
    ensures filename[|filename| - 5] != '/'
  {
    var n := |filename|;
    var sep := LastIndexOf(filename, '/');
    var dot := LastIndexOf(filename, '.');
    var ext := SplitExt(filename).1;
    assert Lower(ext) == ".pdf";
    assert ext == filename[dot..];
    assert dot == n - 4;
    assert !AllDots(filename[sep + 1..dot]);
    assert sep < n - 5;
  }

  /** With the default settings, a name ending in ".pdf" in any case passes
      when its suffix follows something other than a dot or a slash. */
  lemma PdfNamePasses(filename: string)
    requires |filename| > 4 && Lower(filename[|filename| - 4..]) == ".pdf"
    requires filename[|filename| - 5] != '.' && filename[|filename| - 5] != '/'
    ensures ValidateFileExtension(Defaults, filename).None?
  {
    var n := |filename|;
    var sep := LastIndexOf(filename, '/');
    var dot := LastIndexOf(filename, '.');
    assert LowerChar(filename[n - 4]) == '.';
    assert filename[n - 4] == '.';
    assert dot == n - 4;
    assert sep < n - 5;
    var stem := filename[sep + 1..dot];
    assert stem[|stem| - 1] == filename[n - 5];
    assert SplitExt(filename).1 == filename[n - 4..];
  }

  /** The four cases of the extension check, with the default settings. */
  lemma ExtensionExamples()
    ensures ValidateFileExtension(Defaults, "a.PDF").None?
    ensures ValidateFileExtension(Defaults, "a.pdf.exe").Some?
    ensures ValidateFileExtension(Defaults, "pdf").Some?
    ensures ValidateFileExtension(Defaults, ".pdf").Some?
  {
    assert Lower(".PDF") == ".pdf";
    PdfNamePasses("a.PDF");
    if ValidateFileExtension(Defaults, "a.pdf.exe").None? {
      PassingNameEndsInPdf("a.pdf.exe");
    }
    if ValidateFileExtension(Defaults, "pdf").None? {
      PassingNameEndsInPdf("pdf");
    }
    if ValidateFileExtension(Defaults, ".pdf").None? {
      PassingNameEndsInPdf(".pdf");
    }
  }

  // ---------------------------------------------------------------------
  // Summary

  /** The summary built from the page results when none is saved. */
  datatype BasicSummary = BasicSummary(totalPages: int, totalUniqueBrands: nat, allDetectedBrands: seq<string>, status: string)

  datatype SummaryBody = SavedSummary(saved: Json) | Generated(basic: BasicSummary)

  datatype SummaryReply = SummaryReply(documentId: string, summary: SummaryBody, status: string)

  /** Every brand named on some page, in the exact case detected. */
  function BrandUnion(results: seq<BrandDetection>): (u: set<string>)
    ensures forall b :: b in u <==> exists i :: 0 <= i < |results| && b in results[i].brandsDetected
  {
    if results == [] then {}
    else
      var init := results[..|results| - 1];
      assert forall i :: 0 <= i < |init| ==> init[i] == results[i];
      BrandUnion(init) + Elements(results[|results| - 1].brandsDetected)
  }

  /** `set(xs)`. */
  function Elements(xs: seq<string>): (r: set<string>)
    ensures forall x :: x in r <==> x in xs
  {
    if xs == [] then {} else {xs[0]} + Elements(xs[1..])
  }

  function Basic(d: Document): (s: BasicSummary)
    ensures s.totalPages == d.totalPages && s.status == d.status
  {
    var brands := SortedSet(BrandUnion(d.results));
    BasicSummary(d.totalPages, |brands|, brands, d.status)
  }

  const SummaryFailurePrefix := "Failed to get document summary: "

  /** `get_document_summary`, given what the store read back and the
      document's saved summary, if it carries one. */
  function Summarize(lookup: Result<Option<Document>, StoreError>, documentId: string, saved: Option<Json>): (r: Result<SummaryReply, HttpFailure>)
    ensures lookup.Err? ==> r.Err? && r.error.statusCode == 500 && StartsWith(r.error.detail, SummaryFailurePrefix)
    ensures lookup == Ok(None) ==> r == Err(HttpFailure(404, "Document not found"))
    ensures lookup.Ok? && lookup.value.Some? ==> r.Ok? && r.value.documentId == documentId && r.value.status == lookup.value.value.status
    ensures r.Ok? && r.value.summary.SavedSummary? <==> lookup.Ok? && lookup.value.Some? && saved.Some? && Truthy(saved.value)
  {
    match lookup
    case Err(_) => Err(HttpFailure(500, SummaryFailurePrefix + "store error"))
    case Ok(None) => Err(HttpFailure(404, "Document not found"))
    case Ok(Some(d)) =>
      if saved.Some? && Truthy(saved.value) then Ok(SummaryReply(documentId, SavedSummary(saved.value), d.status))
      else Ok(SummaryReply(documentId, Generated(Basic(d)), d.status))
  }

  /** The generated summary lists every brand of every page, each once and
      in ascending order, and counts them. */
  lemma GeneratedSummaryMeaning(d: Document)
    ensures forall b :: b in Basic(d).allDetectedBrands <==>
      exists i :: 0 <= i < |d.results| && b in d.results[i].brandsDetected
    ensures forall i, j :: 0 <= i < j < |Basic(d).allDetectedBrands| ==>
      StrLeq(Basic(d).allDetectedBrands[i], Basic(d).allDetectedBrands[j]) && Basic(d).allDetectedBrands[i] != Basic(d).allDetectedBrands[j]
    ensures Basic(d).totalUniqueBrands == |Basic(d).allDetectedBrands| == |BrandUnion(d.results)|
  {
  }

  /** Brand names that differ only in case are counted separately. */
  lemma CaseSensitiveUnion()
    ensures |BrandUnion([BrandDetection(1, ["Bosch"], 0.0, Completed), BrandDetection(2, ["BOSCH", "Bosch"], 0.0, Completed)])| == 2
  {
    var rs := [BrandDetection(1, ["Bosch"], 0.0, Completed), BrandDetection(2, ["BOSCH", "Bosch"], 0.0, Completed)];
    assert BrandUnion(rs[..1]) == {"Bosch"};
    assert BrandUnion(rs) == {"Bosch", "BOSCH"};
    assert "Bosch" != "BOSCH" by {
      assert "Bosch"[1] != "BOSCH"[1];
    }
  }

  /** `get_document_summary` as written: the `Document` model has no
      `summary` attribute, so reading it raises for every document found. */
  function SummarizeAsWritten(lookup: Result<Option<Document>, StoreError>, documentId: string): (r: Result<SummaryReply, HttpFailure>)
    ensures lookup == Ok(None) ==> r == Err(HttpFailure(404, "Document not found"))
  {
    match lookup
    case Err(_) => Err(HttpFailure(500, SummaryFailurePrefix + "store error"))
    case Ok(None) => Err(HttpFailure(404, "Document not found"))
    case Ok(Some(d)) => Err(HttpFailure(500, SummaryFailurePrefix + "'Document' object has no attribute 'summary'"))
  }

  /** Every document that exists gets a 500 from the endpoint as written,
      where the intended endpoint answers with a summary. */
  lemma SummaryAttributeMissing(d: Document, documentId: string)
    ensures SummarizeAsWritten(Ok(Some(d)), documentId).Err?
    ensures SummarizeAsWritten(Ok(Some(d)), documentId).error.statusCode == 500
    ensures Summarize(Ok(Some(d)), documentId, None).Ok?
  {
  }

  // ---------------------------------------------------------------------
  // Handlers around store calls

  /** `{"message": …, "is_reviewed": …}`. */
  datatype ReviewReply = ReviewReply(message: string, isReviewed: bool)

  const ReviewFailurePrefix := "Failed to update brand review status: "

  /** The endpoint handlers. The module-level service singletons are the
      `store` each method receives. */
  class DocumentsApi {
    const store: FirebaseService

    constructor (store: FirebaseService)
      ensures this.store == store
    {
      this.store := store;
    }

    /** `upload_document` up to the creation of the record: the extension
        is checked before the size. */
    method UploadDocument(s: Settings, filename: string, content: seq<bv8>, newId: string, now: string)
      returns (r: Result<Document, HttpFailure>)
      modifies store
      ensures ValidateFileExtension(s, filename).Some? ==> r == Err(ValidateFileExtension(s, filename).value) && unchanged(store)
      ensures ValidateFileExtension(s, filename).None? && ValidateFileSize(s, |content|).Some? ==>
        r == Err(ValidateFileSize(s, |content|).value) && unchanged(store)
      ensures ValidateFileExtension(s, filename).None? && ValidateFileSize(s, |content|).None? ==>
        r == Ok(Document(newId, filename, 0, now, Processing, [])) && store.docs == old(store.docs)[newId := NewRecord(newId, filename, 0, now)]
    {
      var bad := ValidateFileExtension(s, filename);
      if bad.Some? {
        return Err(bad.value);
      }
      bad := ValidateFileSize(s, |content|);
      if bad.Some? {
        return Err(bad.value);
      }
      var d := store.CreateDocument(filename, 0, newId, now);
      return Ok(d);
    }

    /** `_process_document_safely`: `raised` is the error the processing
        call raised, if any. It never raises itself: on an error it tries to
        mark the document "failed" and ignores a failure of that write. */
    method ProcessDocumentSafely(documentId: string, raised: Option<string>)
      modifies store
      ensures raised.None? ==> store.docs == old(store.docs)
      ensures raised.Some? && documentId in old(store.docs) ==>
        store.docs == ApplyUpdate(old(store.docs), documentId, DocumentUpdate(None, Some(Failed)))
      ensures documentId !in old(store.docs) ==> store.docs == old(store.docs)
    {
      if raised.Some? {
        var _ := store.UpdateDocument(documentId, DocumentUpdate(None, Some(Failed)));
      }
    }

    /** `get_documents`: every stored document once when the store reads
        them all, and an empty list instead of an error. */
    method GetDocuments() returns (r: seq<Document>)
      ensures (exists id :: id in store.docs && View(store.docs[id]).Err?) ==> r == []
      ensures (forall id :: id in store.docs ==> View(store.docs[id]).Ok?) ==>
        && |r| == |store.docs|
        && (forall d :: d in r ==> exists id :: id in store.docs && View(store.docs[id]) == Ok(d))
        && (forall id :: id in store.docs ==> exists i :: 0 <= i < |r| && View(store.docs[id]) == Ok(r[i]))
    {
      var all, order := store.GetAllDocuments();
      if all.Err? {
        return [];
      }
      forall d | d in all.value
        ensures exists id :: id in store.docs && View(store.docs[id]) == Ok(d)
      {
        var i :| 0 <= i < |all.value| && all.value[i] == d;
        assert order[i] in store.docs && View(store.docs[order[i]]) == Ok(all.value[i]);
      }
      forall id | id in store.docs
        ensures exists i :: 0 <= i < |all.value| && View(store.docs[id]) == Ok(all.value[i])
      {
        assert id in order;
        var i :| 0 <= i < |order| && order[i] == id;
        assert View(store.docs[order[i]]) == Ok(all.value[i]);
      }
      return all.value;
    }

    /** `get_document_summary`; `saved` is the document's saved summary, if
        it carries one. The fallback collects the brands page by page. */
    method GetDocumentSummary(documentId: string, saved: Option<Json>) returns (r: Result<SummaryReply, HttpFailure>)
      ensures r == Summarize(Lookup(store.docs, documentId), documentId, saved)
    {
      var lookup := store.GetDocument(documentId);
      if lookup.Err? {
        return Err(HttpFailure(500, SummaryFailurePrefix + "store error"));
      }
      if lookup.value.None? {
        return Err(HttpFailure(404, "Document not found"));
      }
      var d := lookup.value.value;
      if saved.Some? && Truthy(saved.value) {
        return Ok(SummaryReply(documentId, SavedSummary(saved.value), d.status));
      }
      var allBrands := CollectBrands(d.results);
      var brands := SortedSet(allBrands);
      return Ok(SummaryReply(documentId, Generated(BasicSummary(d.totalPages, |brands|, brands, d.status)), d.status));
    }

    /** The fallback's loop: each page's brands are added to a set. */
    method CollectBrands(results: seq<BrandDetection>) returns (allBrands: set<string>)
      ensures allBrands == BrandUnion(results)
    {
      allBrands := {};
      for i := 0 to |results|
        invariant allBrands == BrandUnion(results[..i])
      {
        assert results[..i + 1][..i] == results[..i];
        allBrands := allBrands + Elements(results[i].brandsDetected);
      }
      assert results[..|results|] == results;
    }

    /** `update_brand_review_status`. The store operation it calls is not
        part of the store model; `reviewed` is its outcome: an error, or
        whether a matching brand was updated. */
    method UpdateBrandReviewStatus(documentId: string, brandName: string, isReviewed: bool, reviewed: Result<bool, string>)
      returns (r: Result<ReviewReply, HttpFailure>)
      ensures Lookup(store.docs, documentId).Err? ==> r.Err? && r.error.statusCode == 500
      ensures Lookup(store.docs, documentId) == Ok(None) ==> r == Err(HttpFailure(404, "Document not found"))
      ensures Lookup(store.docs, documentId).Ok? && Lookup(store.docs, documentId).value.Some? ==>
        r == match reviewed
             case Err(m) => Err(HttpFailure(500, ReviewFailurePrefix + m))
             case Ok(false) => Err(HttpFailure(404, "Brand not found in document"))
             case Ok(true) => Ok(ReviewReply("Brand '" + brandName + "' review status updated successfully", isReviewed))
      ensures r.Ok? ==> r.value.isReviewed == isReviewed
    {
      var lookup := store.GetDocument(documentId);
      if lookup.Err? {
        return Err(HttpFailure(500, ReviewFailurePrefix + "store error"));
      }
      if lookup.value.None? {
        return Err(HttpFailure(404, "Document not found"));
      }
      if reviewed.Err? {
        return Err(HttpFailure(500, ReviewFailurePrefix + reviewed.error));
      }
      if !reviewed.value {
        return Err(HttpFailure(404, "Brand not found in document"));
      }
      return Ok(ReviewReply("Brand '" + brandName + "' review status updated successfully", isReviewed));
    }
  }
}
