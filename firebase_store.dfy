/** The Firestore `documents` collection (backend/app/services/firebase_service.py)
    as a keyed table held by the service: each record has its metadata and a
    `results` map from page number to a slot of optional fields, updated in
    place. A Firestore `update` of a missing document fails with `NotFound`;
    reading back a slot that lacks one of the fields `BrandDetection` requires
    fails pydantic validation (`InvalidResult`). */
module FirebaseStore {
  import opened Wrappers
  import opened Sorting
  import opened Models

  /** One entry of a record's `results` map: the fields that have been
      written to it so far. */
  datatype Slot = Slot(
    pageNumber: Option<int>,
    brandsDetected: Option<seq<string>>,
    processingTime: Option<real>,
    status: Option<string>,
    errorMessage: Option<string>)

  const EmptySlot: Slot := Slot(None, None, None, None, None)

  /** A stored document. */
  datatype DocRecord = DocRecord(
    id: string,
    filename: string,
    totalPages: int,
    uploadDate: string,
    status: string,
    results: map<int, Slot>)

  datatype StoreError = NotFound | InvalidResult

  /** The slot has every field a `BrandDetection` requires. */
  predicate Complete(s: Slot) {
    s.pageNumber.Some? && s.brandsDetected.Some? && s.processingTime.Some? && s.status.Some?
  }

  function AsDetection(s: Slot): BrandDetection
    requires Complete(s)
  {
    BrandDetection(s.pageNumber.value, s.brandsDetected.value, s.processingTime.value, s.status.value)
  }

  /** The page results read back for the slots under `keys`, in that order;
      one incomplete slot makes the whole read fail. */
  function DetectionsAt(results: map<int, Slot>, keys: seq<int>): (r: Result<seq<BrandDetection>, StoreError>)
    requires forall k :: k in keys ==> k in results
    ensures r.Ok? <==> forall k :: k in keys ==> Complete(results[k])
    ensures r.Err? ==> r.error == InvalidResult
    ensures r.Ok? ==> |r.value| == |keys|
    ensures r.Ok? ==> forall i :: 0 <= i < |keys| ==>
      (keys[i] in results && Complete(results[keys[i]]) && r.value[i] == AsDetection(results[keys[i]]))
  {
    if keys == [] then Ok([])
    else
      var init := keys[..|keys| - 1];
      var last := keys[|keys| - 1];
      assert forall k :: k in keys <==> k in init || k == last;
      match DetectionsAt(results, init)
      case Err(e) => Err(e)
      case Ok(ds) =>
        if Complete(results[last]) then Ok(ds + [AsDetection(results[last])]) else Err(InvalidResult)
  }

  /** Reading one more slot: the read fails if that slot is incomplete and
      otherwise takes in its result. */
  lemma ReadStep(results: map<int, Slot>, keys: seq<int>, i: int)
    requires 0 <= i < |keys|
    requires forall k :: k in keys ==> k in results
    requires DetectionsAt(results, keys[..i]).Ok?
    ensures keys[i] in results
    ensures !Complete(results[keys[i]]) ==> DetectionsAt(results, keys) == Err(InvalidResult)
    ensures Complete(results[keys[i]]) ==>
      DetectionsAt(results, keys[..i + 1]) == Ok(DetectionsAt(results, keys[..i]).value + [AsDetection(results[keys[i]])])
  {
    var key := keys[i];
    assert key in keys;
    assert keys[..i + 1][..i] == keys[..i];
  }

  /** The results of a record, in ascending page order. */
  function Detections(results: map<int, Slot>): Result<seq<BrandDetection>, StoreError> {
    DetectionsAt(results, SortedKeys(results.Keys))
  }

  /** The `Document` a record reads back as. */
  function View(rec: DocRecord): Result<Document, StoreError> {
    match Detections(rec.results)
    case Err(e) => Err(e)
    case Ok(ds) => Ok(Document(rec.id, rec.filename, rec.totalPages, rec.uploadDate, rec.status, ds))
  }

  /** `get_document`: `None` for an absent id. */
  function Lookup(docs: map<string, DocRecord>, id: string): Result<Option<Document>, StoreError> {
    if id !in docs then Ok(None)
    else match View(docs[id])
      case Err(e) => Err(e)
      case Ok(d) => Ok(Some(d))
  }

  /** The record `create_document` writes. */
  function NewRecord(id: string, filename: string, totalPages: int, now: string): DocRecord {
    DocRecord(id, filename, totalPages, now, Processing, map[])
  }

  /** The partial update: only the fields given are replaced. */
  predicate HasChanges(u: DocumentUpdate) {
    u.filename.Some? || u.status.Some?
  }

  function Applied(rec: DocRecord, u: DocumentUpdate): (r: DocRecord)
    ensures r.filename == (if u.filename.Some? then u.filename.value else rec.filename)
    ensures r.status == (if u.status.Some? then u.status.value else rec.status)
    ensures r.(filename := rec.filename, status := rec.status) == rec
  {
    rec.(filename := if u.filename.Some? then u.filename.value else rec.filename,
         status := if u.status.Some? then u.status.value else rec.status)
  }

  /** The slot `save_brand_detection_result` writes: it replaces the whole
      entry, so an earlier error message is dropped. */
  function CompletedSlot(result: BrandDetectionCreate, processingTime: real): Slot {
    Slot(Some(result.pageNumber), Some(result.brandsDetected), Some(processingTime), Some(Completed), None)
  }

  /** The slot after `update_page_status`: the status is set, the message
      only when it is a non-empty string; an absent entry is created with
      nothing else in it. */
  function StatusSlot(previous: Option<Slot>, status: string, errorMessage: Option<string>): (s: Slot)
    ensures s.status == Some(status)
    ensures errorMessage.Some? && errorMessage.value != [] ==> s.errorMessage == errorMessage
    ensures previous.Some? ==> s.(status := previous.value.status, errorMessage := previous.value.errorMessage) == previous.value
    ensures previous.None? ==> s.pageNumber.None? && s.brandsDetected.None? && s.processingTime.None?
    ensures previous.None? && (errorMessage.None? || errorMessage.value == []) ==> s.errorMessage.None?
  {
    var base := if previous.Some? then previous.value else EmptySlot;
    var message := if errorMessage.Some? && errorMessage.value != [] then errorMessage else base.errorMessage;
    base.(status := Some(status), errorMessage := message)
  }

  function SlotOf(results: map<int, Slot>, page: int): Option<Slot> {
    if page in results then Some(results[page]) else None
  }

  /** The table after `update_page_status` on an existing document. */
  function SetPageStatus(docs: map<string, DocRecord>, id: string, pageNumber: int, status: string, errorMessage: Option<string>): map<string, DocRecord>
    requires id in docs
  {
    docs[id := docs[id].(results := docs[id].results[pageNumber :=
      StatusSlot(SlotOf(docs[id].results, pageNumber), status, errorMessage)])]
  }

  /** The table after `save_brand_detection_result` on an existing document. */
  function SaveResult(docs: map<string, DocRecord>, id: string, pageNumber: int, result: BrandDetectionCreate, processingTime: real): map<string, DocRecord>
    requires id in docs
  {
    docs[id := docs[id].(results := docs[id].results[pageNumber := CompletedSlot(result, processingTime)])]
  }

  /** The table after `update_document` on an existing document. */
  function ApplyUpdate(docs: map<string, DocRecord>, id: string, u: DocumentUpdate): map<string, DocRecord>
    requires id in docs
  {
    docs[id := Applied(docs[id], u)]
  }

  /** How many results carry the given status. */
  function Count(rs: seq<BrandDetection>, status: string): (n: nat)
    ensures n <= |rs|
  {
    if rs == [] then 0
    else Count(rs[..|rs| - 1], status) + (if rs[|rs| - 1].status == status then 1 else 0)
  }

  /** `page_status`: each result's page mapped to its status. */
  function PageStatuses(rs: seq<BrandDetection>): (m: map<int, string>)
    ensures forall i :: 0 <= i < |rs| ==> rs[i].pageNumber in m
    ensures forall k :: k in m ==> exists i :: 0 <= i < |rs| && rs[i].pageNumber == k
  {
    if rs == [] then map[]
    else
      var init := rs[..|rs| - 1];
      var last := rs[|rs| - 1];
      assert forall i :: 0 <= i < |init| ==> rs[i] == init[i];
      PageStatuses(init)[last.pageNumber := last.status]
  }

  /** One more result read: each counter and the page map take it in. */
  lemma CountStep(rs: seq<BrandDetection>, i: int)
    requires 0 <= i < |rs|
    ensures Count(rs[..i + 1], Completed) == Count(rs[..i], Completed) + (if rs[i].status == Completed then 1 else 0)
    ensures Count(rs[..i + 1], Failed) == Count(rs[..i], Failed) + (if rs[i].status == Failed then 1 else 0)
    ensures PageStatuses(rs[..i + 1]) == PageStatuses(rs[..i])[rs[i].pageNumber := rs[i].status]
  {
    assert rs[..i + 1][..i] == rs[..i];
  }

  /** A later result overrides an earlier one with the same page number: a
      page maps to the status of its last result. */
  lemma {:induction false} PageStatusesLast(rs: seq<BrandDetection>, i: int)
    requires 0 <= i < |rs|
    requires forall j :: i < j < |rs| ==> rs[j].pageNumber != rs[i].pageNumber
    ensures PageStatuses(rs)[rs[i].pageNumber] == rs[i].status
  {
    if i < |rs| - 1 {
      var init := rs[..|rs| - 1];
      assert init[i] == rs[i];
      PageStatusesLast(init, i);
    }
  }

  /** The overall status of the view. */
  function Overall(processed: nat, failed: nat, totalPages: int): string {
    if processed == totalPages then Completed
    else if failed > 0 && processed + failed == totalPages then Failed
    else Processing
  }

  function Percentage(processed: nat, totalPages: int): real {
    if totalPages > 0 then (processed as real / totalPages as real) * 100.0 else 0.0
  }

  /** The processing-status view of a document. */
  function StatusOf(documentId: string, d: Document): ProcessingStatus {
    var processed := Count(d.results, Completed);
    var failed := Count(d.results, Failed);
    ProcessingStatus(documentId, Overall(processed, failed, d.totalPages), d.totalPages,
      processed, failed, Percentage(processed, d.totalPages), PageStatuses(d.results))
  }

  function StatusView(docs: map<string, DocRecord>, id: string): Result<Option<ProcessingStatus>, StoreError> {
    match Lookup(docs, id)
    case Err(e) => Err(e)
    case Ok(None) => Ok(None)
    case Ok(Some(d)) => Ok(Some(StatusOf(id, d)))
  }

  class FirebaseService {
    var docs: map<string, DocRecord>

    constructor ()
      ensures docs == map[]
    {
      docs := map[];
    }

    /** Reads one record back; the loop is the one `get_document` and
        `get_all_documents` both run over the `results` entries. */
    method ReadRecord(rec: DocRecord) returns (r: Result<Document, StoreError>)
      ensures r == View(rec)
    {
      var keys := SortedKeys(rec.results.Keys);
      var results: seq<BrandDetection> := [];
      for i := 0 to |keys|
        invariant DetectionsAt(rec.results, keys[..i]) == Ok(results)
      {
        ReadStep(rec.results, keys, i);
        var slot := rec.results[keys[i]];
        if !Complete(slot) {
          return Err(InvalidResult);
        }
        results := results + [AsDetection(slot)];
      }
      assert keys[..|keys|] == keys;
      return Ok(Document(rec.id, rec.filename, rec.totalPages, rec.uploadDate, rec.status, results));
    }

    /** A new record under `newId` (a fresh UUID in the service) with status
        "processing" and no results; reading it back gives the returned
        document. */
    method CreateDocument(filename: string, totalPages: int, newId: string, now: string) returns (d: Document)
      modifies this
      ensures docs == old(docs)[newId := NewRecord(newId, filename, totalPages, now)]
      ensures d == Document(newId, filename, totalPages, now, Processing, [])
      ensures Lookup(docs, newId) == Ok(Some(d))
    {
      docs := docs[newId := NewRecord(newId, filename, totalPages, now)];
      d := Document(newId, filename, totalPages, now, Processing, []);
      assert SortedKeys({}) == [];
    }

    method GetDocument(id: string) returns (r: Result<Option<Document>, StoreError>)
      ensures r == Lookup(docs, id)
    {
      if id !in docs {
        return Ok(None);
      }
      var d := ReadRecord(docs[id]);
      if d.Err? {
        return Err(d.error);
      }
      return Ok(Some(d.value));
    }

    /** Every record read back, in the order the collection is streamed
        (`order`); the first unreadable record makes the whole call fail. */
    method GetAllDocuments() returns (r: Result<seq<Document>, StoreError>, ghost order: seq<string>)
      ensures r.Ok? <==> forall id :: id in docs ==> View(docs[id]).Ok?
      ensures r.Ok? ==> |r.value| == |order| == |docs|
      ensures r.Ok? ==> forall id :: id in order <==> id in docs
      ensures r.Ok? ==> forall i :: 0 <= i < |order| ==> order[i] in docs && View(docs[order[i]]) == Ok(r.value[i])
    {
      var remaining := docs.Keys;
      var documents: seq<Document> := [];
      order := [];
      while remaining != {}
        invariant remaining <= docs.Keys
        invariant forall id :: id in order <==> id in docs && id !in remaining
        invariant |order| + |remaining| == |docs|
        invariant |documents| == |order|
        invariant forall i :: 0 <= i < |order| ==> order[i] in docs && View(docs[order[i]]) == Ok(documents[i])
        decreases |remaining|
      {
        if forall y :: y !in remaining { assert false; }
        var id :| id in remaining;
        var d := ReadRecord(docs[id]);
        if d.Err? {
          return Err(d.error), order;
        }
        documents := documents + [d.value];
        order := order + [id];
        remaining := remaining - {id};
      }
      forall id | id in docs ensures View(docs[id]).Ok? {
        assert id in order;
        var i :| 0 <= i < |order| && order[i] == id;
      }
      return Ok(documents), order;
    }

    /** Writes the given fields (none at all when both are absent, so an
        absent id then reads back as `None` instead of failing) and reads
        the document back. */
    method UpdateDocument(id: string, u: DocumentUpdate) returns (r: Result<Option<Document>, StoreError>)
      modifies this
      ensures HasChanges(u) && id !in old(docs) ==> r == Err(NotFound) && docs == old(docs)
      ensures HasChanges(u) && id in old(docs) ==> docs == ApplyUpdate(old(docs), id, u)
      ensures !HasChanges(u) ==> docs == old(docs)
      ensures !(HasChanges(u) && id !in old(docs)) ==> r == Lookup(docs, id)
    {
      if HasChanges(u) {
        if id !in docs {
          return Err(NotFound);
        }
        docs := docs[id := Applied(docs[id], u)];
      }
      r := GetDocument(id);
    }

    method DeleteDocument(id: string) returns (deleted: bool)
      modifies this
      ensures deleted <==> id in old(docs)
      ensures docs == old(docs) - {id}
      ensures Lookup(docs, id) == Ok(None)
    {
      if id !in docs {
        return false;
      }
      docs := docs - {id};
      return true;
    }

    /** Replaces the slot of `pageNumber` and nothing else. */
    method SaveBrandDetectionResult(id: string, pageNumber: int, result: BrandDetectionCreate, processingTime: real)
      returns (r: Result<BrandDetection, StoreError>)
      modifies this
      ensures id !in old(docs) ==> r == Err(NotFound) && docs == old(docs)
      ensures id in old(docs) ==> docs == SaveResult(old(docs), id, pageNumber, result, processingTime)
      ensures id in old(docs) ==> r == Ok(BrandDetection(result.pageNumber, result.brandsDetected, processingTime, Completed))
    {
      if id !in docs {
        return Err(NotFound);
      }
      var rec := docs[id];
      docs := docs[id := rec.(results := rec.results[pageNumber := CompletedSlot(result, processingTime)])];
      return Ok(BrandDetection(result.pageNumber, result.brandsDetected, processingTime, Completed));
    }

    /** Sets the status of one slot, and its error message when one is given. */
    method UpdatePageStatus(id: string, pageNumber: int, status: string, errorMessage: Option<string>)
      returns (r: Result<(), StoreError>)
      modifies this
      ensures id !in old(docs) ==> r == Err(NotFound) && docs == old(docs)
      ensures id in old(docs) ==> r == Ok(())
      ensures id in old(docs) ==> docs == SetPageStatus(old(docs), id, pageNumber, status, errorMessage)
    {
      if id !in docs {
        return Err(NotFound);
      }
      var rec := docs[id];
      var slot := StatusSlot(SlotOf(rec.results, pageNumber), status, errorMessage);
      docs := docs[id := rec.(results := rec.results[pageNumber := slot])];
      return Ok(());
    }

    /** Counts the completed and failed results and collects each page's
        status. */
    method GetProcessingStatus(id: string) returns (r: Result<Option<ProcessingStatus>, StoreError>)
      ensures r == StatusView(docs, id)
    {
      var found := GetDocument(id);
      if found.Err? {
        return Err(found.error);
      }
      if found.value.None? {
        return Ok(None);
      }
      var d := found.value.value;
      var processed: nat := 0;
      var failed: nat := 0;
      var pageStatus: map<int, string> := map[];
      for i := 0 to |d.results|
        invariant processed == Count(d.results[..i], Completed)
        invariant failed == Count(d.results[..i], Failed)
        invariant pageStatus == PageStatuses(d.results[..i])
      {
        CountStep(d.results, i);
        var result := d.results[i];
        pageStatus := pageStatus[result.pageNumber := result.status];
        if result.status == Completed {
          processed := processed + 1;
        } else if result.status == Failed {
          failed := failed + 1;
        }
      }
      assert d.results[..|d.results|] == d.results;
      var status := Overall(processed, failed, d.totalPages);
      return Ok(Some(ProcessingStatus(id, status, d.totalPages, processed, failed,
        Percentage(processed, d.totalPages), pageStatus)));
    }
  }

  /** A created document reads back with no results and status
      "processing". */
  lemma CreatedReadsBack(docs: map<string, DocRecord>, id: string, filename: string, totalPages: int, now: string)
    ensures Lookup(docs[id := NewRecord(id, filename, totalPages, now)], id)
      == Ok(Some(Document(id, filename, totalPages, now, Processing, [])))
  {
    assert SortedKeys({}) == [];
  }

  /** The results of a record are readable exactly when every slot is
      complete, and then there is one per slot, in ascending page order. */
  lemma DetectionsReadable(results: map<int, Slot>)
    ensures Detections(results).Ok? <==> forall k :: k in results ==> Complete(results[k])
    ensures Detections(results).Ok? ==> |Detections(results).value| == |results|
  {
    var keys := SortedKeys(results.Keys);
    if Detections(results).Ok? {
      DistinctKeysCount(keys, results.Keys);
    }
  }

  lemma {:induction false} DistinctKeysCount(keys: seq<int>, ks: set<int>)
    requires forall k :: k in keys <==> k in ks
    requires forall i, j :: 0 <= i < j < |keys| ==> keys[i] < keys[j]
    ensures |keys| == |ks|
  {
    if keys == [] {
      assert forall k :: k !in ks;
      assert ks == {};
    } else {
      assert keys[0] in keys;
      var rest := keys[1..];
      assert forall k :: k in rest <==> k in ks - {keys[0]} by {
        forall k ensures k in rest <==> k in ks - {keys[0]} {
          if k in rest {
            var i :| 0 <= i < |rest| && rest[i] == k;
            assert keys[i + 1] == k;
          }
          if k in ks && k != keys[0] {
            var i :| 0 <= i < |keys| && keys[i] == k;
            assert i != 0;
            assert rest[i - 1] == k;
          }
        }
      }
      DistinctKeysCount(rest, ks - {keys[0]});
    }
  }

  /** A saved page result is visible when the document is read back, and a
      readable document stays readable. */
  lemma SavedResultVisible(rec: DocRecord, pageNumber: int, result: BrandDetectionCreate, processingTime: real)
    requires View(rec).Ok?
    ensures View(rec.(results := rec.results[pageNumber := CompletedSlot(result, processingTime)])).Ok?
    ensures BrandDetection(result.pageNumber, result.brandsDetected, processingTime, Completed)
      in View(rec.(results := rec.results[pageNumber := CompletedSlot(result, processingTime)])).value.results
  {
    var results := rec.results[pageNumber := CompletedSlot(result, processingTime)];
    DetectionsReadable(rec.results);
    DetectionsReadable(results);
    DetectionOfSlot(results, pageNumber);
  }

  /** A readable record shows the result of each of its slots. */
  lemma DetectionOfSlot(results: map<int, Slot>, p: int)
    requires p in results && Detections(results).Ok?
    ensures Complete(results[p]) && AsDetection(results[p]) in Detections(results).value
  {
    var keys := SortedKeys(results.Keys);
    assert p in keys;
    var i :| 0 <= i < |keys| && keys[i] == p;
    assert Detections(results).value[i] == AsDetection(results[p]);
  }

  /** A status written for a page that has no saved result creates a slot
      that cannot be read back: the whole document becomes unreadable. */
  lemma StatusOnlySlotUnreadable(rec: DocRecord, pageNumber: int, status: string, errorMessage: Option<string>)
    requires pageNumber !in rec.results
    ensures View(rec.(results := rec.results[pageNumber := StatusSlot(None, status, errorMessage)])).Err?
  {
    var results := rec.results[pageNumber := StatusSlot(None, status, errorMessage)];
    DetectionsReadable(results);
    assert pageNumber in results && !Complete(results[pageNumber]);
  }

  /** A status written over a saved result keeps the document readable, and
      the page now reads back with the new status. */
  lemma StatusOverSavedResult(rec: DocRecord, pageNumber: int, status: string, errorMessage: Option<string>)
    requires View(rec).Ok? && pageNumber in rec.results
    ensures View(rec.(results := rec.results[pageNumber := StatusSlot(Some(rec.results[pageNumber]), status, errorMessage)])).Ok?
    ensures AsDetection(rec.results[pageNumber]).(status := status)
      in View(rec.(results := rec.results[pageNumber := StatusSlot(Some(rec.results[pageNumber]), status, errorMessage)])).value.results
  {
    var slot := StatusSlot(Some(rec.results[pageNumber]), status, errorMessage);
    var results := rec.results[pageNumber := slot];
    DetectionsReadable(rec.results);
    DetectionOfSlot(rec.results, pageNumber);
    assert AsDetection(slot) == AsDetection(rec.results[pageNumber]).(status := status);
    assert forall k :: k in results ==> Complete(results[k]);
    DetectionsReadable(results);
    DetectionOfSlot(results, pageNumber);
  }

  /** An update is visible when the document is read back; nothing but the
      given fields changes. */
  lemma UpdateReadsBack(docs: map<string, DocRecord>, id: string, u: DocumentUpdate)
    requires Lookup(docs, id).Ok? && Lookup(docs, id).value.Some?
    ensures Lookup(docs[id := Applied(docs[id], u)], id) == Ok(Some(Lookup(docs, id).value.value.(
      filename := if u.filename.Some? then u.filename.value else docs[id].filename,
      status := if u.status.Some? then u.status.value else docs[id].status)))
  {
  }

  /** A result is counted at most once: completed and failed pages together
      never outnumber the results. */
  lemma {:induction false} CountsBounded(rs: seq<BrandDetection>)
    ensures Count(rs, Completed) + Count(rs, Failed) <= |rs|
  {
    if rs != [] {
      CountsBounded(rs[..|rs| - 1]);
    }
  }

  /** The percentage is 0 for a document without pages, and between 0 and
      100 while no more pages are complete than the document has. */
  lemma PercentageBounds(processed: nat, totalPages: int)
    ensures totalPages <= 0 ==> Percentage(processed, totalPages) == 0.0
    ensures 0 < totalPages && processed <= totalPages ==> 0.0 <= Percentage(processed, totalPages) <= 100.0
    ensures 0 < totalPages && processed == totalPages ==> Percentage(processed, totalPages) == 100.0
  {
    if 0 < totalPages && processed <= totalPages {
      var q := processed as real / totalPages as real;
      assert q * totalPages as real == processed as real;
      assert q <= 1.0;
    }
  }

  /** The view reports "completed" exactly when every page completed,
      "failed" exactly when not all completed, some failed and every page
      has finished, and "processing" in every other case; no other status
      is reported. */
  lemma {:induction false} OverallStatusMeaning(id: string, d: Document)
    ensures StatusOf(id, d).status == Completed <==> StatusOf(id, d).processedPages == d.totalPages
    ensures StatusOf(id, d).status == Failed <==>
      && StatusOf(id, d).processedPages != d.totalPages
      && StatusOf(id, d).failedPages > 0
      && StatusOf(id, d).processedPages + StatusOf(id, d).failedPages == d.totalPages
    ensures StatusOf(id, d).status == Processing <==>
      && StatusOf(id, d).processedPages != d.totalPages
      && !(StatusOf(id, d).failedPages > 0 && StatusOf(id, d).processedPages + StatusOf(id, d).failedPages == d.totalPages)
    ensures StatusOf(id, d).status in {Completed, Failed, Processing}
    ensures (forall i :: 0 <= i < |d.results| ==> d.results[i].status == Completed) && |d.results| == d.totalPages ==>
      StatusOf(id, d).status == Completed
  {
    if (forall i :: 0 <= i < |d.results| ==> d.results[i].status == Completed) {
      AllCounted(d.results, Completed);
    }
  }

  lemma {:induction false} AllCounted(rs: seq<BrandDetection>, status: string)
    requires forall i :: 0 <= i < |rs| ==> rs[i].status == status
    ensures Count(rs, status) == |rs|
  {
    if rs != [] {
      AllCounted(rs[..|rs| - 1], status);
    }
  }
}
