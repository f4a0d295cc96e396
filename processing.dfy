/** The document run of backend/app/services/processing_service.py: a
    tracking entry per running document, one step per page (status
    "processing", detection, saved result or status "failed"), the final
    status, and the cleanup, with cancellation as a second operation on the
    same tracking map. The page loop is sequential; a cancel request is
    injected while the detection of one chosen page is awaited. */
module Processing {
  import opened Wrappers
  import opened Models
  import opened Brands
  import opened FirebaseStore

  /** An `active_processes` entry. */
  datatype Tracking = Tracking(startTime: real, totalPages: int, processedPages: nat, failedPages: nat)

  /** What a page raised: the first status write, the detection, the
      lookup of the tracking entry (a `KeyError` once it was removed), or
      the save of the result. */
  datatype PageFailure =
    | StatusWriteFailed
    | DetectionFailed(error: DetectionError)
    | TrackingMissing(documentId: string)
    | SaveFailed

  const StatusWriteText := "Failed to update page status: "
  const SaveText := "Failed to save brand detection result: "

  /** `str(e)` of the page failure, which the page slot stores as its
      error: the store's messages stop before the Firestore error's own
      text, a detection keeps the text it raised with, and a `KeyError`
      prints its key in quotes. */
  function FailureText(f: PageFailure): string {
    match f
    case StatusWriteFailed => StatusWriteText
    case SaveFailed => SaveText
    case DetectionFailed(e) => ErrorText(e)
    case TrackingMissing(id) => "'" + id + "'"
  }

  /** The message stored for each kind of page failure: the store calls'
      prefixes, a detection's own text, and a missing tracking entry's id,
      which can be read back from between the quotes. */
  lemma FailureTextMessages(f: PageFailure)
    ensures f == StatusWriteFailed ==> FailureText(f) == "Failed to update page status: "
    ensures f == SaveFailed ==> FailureText(f) == "Failed to save brand detection result: "
    ensures f.DetectionFailed? ==> FailureText(f) == ErrorText(f.error)
    ensures f.TrackingMissing? ==>
      && FailureText(f) == "'" + f.documentId + "'"
      && FailureText(f)[1..|FailureText(f)| - 1] == f.documentId
  {
  }

  /** An exception that leaves the run: a store call or a tracking lookup. */
  datatype Escape = StoreRaised(error: StoreError) | KeyMissing

  /** The store table and the tracking map together. */
  datatype RunState = RunState(docs: map<string, DocRecord>, active: map<string, Tracking>)

  /** A state and, when the code raised, what escaped. */
  datatype Step = Step(state: RunState, escape: Option<Escape>)

  datatype CancelResult = CancelResult(state: RunState, cancelled: bool)

  /** `cancel_processing`: writes "cancelled" and removes the entry; the
      call reports failure when the write or its read-back raises, and then
      the entry stays. */
  function Cancel(s: RunState, id: string): (r: CancelResult)
    ensures r.state.docs.Keys == s.docs.Keys
    ensures r.cancelled ==> id in r.state.docs && r.state.docs[id].status == Cancelled && id !in r.state.active
    ensures r.cancelled <==> id in s.docs && Lookup(ApplyUpdate(s.docs, id, DocumentUpdate(None, Some(Cancelled))), id).Ok?
    ensures !r.cancelled ==> r.state.active == s.active
  {
    if id !in s.docs then CancelResult(s, false)
    else
      var docs := ApplyUpdate(s.docs, id, DocumentUpdate(None, Some(Cancelled)));
      if Lookup(docs, id).Err? then CancelResult(RunState(docs, s.active), false)
      else CancelResult(RunState(docs, s.active - {id}), true)
  }

  /** The handler of a failed page: status "failed" with the error text, then
      one more failed page on the tracking entry. */
  function PageFailed(s: RunState, id: string, pageNumber: int, f: PageFailure): Step {
    if id !in s.docs then Step(s, Some(StoreRaised(NotFound)))
    else
      var docs := SetPageStatus(s.docs, id, pageNumber, Failed, Some(FailureText(f)));
      if id !in s.active then Step(RunState(docs, s.active), Some(KeyMissing))
      else
        var t := s.active[id];
        Step(RunState(docs, s.active[id := t.(failedPages := t.failedPages + 1)]), None)
  }

  /** One page, the `i`-th image: `outcome` is what its detection returned
      and `now` the clock when it did. */
  function Page(s: RunState, id: string, i: nat, outcome: Result<BrandDetectionCreate, DetectionError>, now: real, cancelHere: bool): Step {
    var p := i + 1;
    if id !in s.docs then PageFailed(s, id, p, StatusWriteFailed)
    else
      var s1 := RunState(SetPageStatus(s.docs, id, p, Processing, None), s.active);
      var s2 := if cancelHere then Cancel(s1, id).state else s1;
      Detected(s2, id, p, outcome, now)
  }

  /** The rest of a page once its detection has returned: the result is
      saved with the time since the run started, or the page fails. */
  function Detected(s: RunState, id: string, p: int, outcome: Result<BrandDetectionCreate, DetectionError>, now: real): Step {
    if outcome.Err? then PageFailed(s, id, p, DetectionFailed(outcome.error))
    else if id !in s.active then PageFailed(s, id, p, TrackingMissing(id))
    // The save raises when the document is gone from the store; no step of
    // a run removes it, so inside a run this branch stays unreached, but the
    // step is defined on every state.
    else if id !in s.docs then PageFailed(s, id, p, SaveFailed)
    else
      var t := s.active[id];
      var docs := SaveResult(s.docs, id, p, outcome.value, now - t.startTime);
      Step(RunState(docs, s.active[id := t.(processedPages := t.processedPages + 1)]), None)
  }

  /** The pages from the `i`-th on, until one raises out of its handler. */
  function PagesFrom(s: RunState, id: string, outcomes: seq<Result<BrandDetectionCreate, DetectionError>>,
                     clock: nat -> real, cancelAt: Option<nat>, i: nat): Step
    decreases |outcomes| - i
  {
    if i >= |outcomes| then Step(s, None)
    else
      var st := Page(s, id, i, outcomes[i], clock(i), cancelAt == Some(i));
      if st.escape.Some? then st else PagesFrom(st.state, id, outcomes, clock, cancelAt, i + 1)
  }

  /** The final status: "completed" without failed pages, "failed" when
      every page failed, "completed_with_errors" otherwise. */
  function FinalStatus(failedPages: nat, totalPages: int): (status: string)
    ensures status == Completed <==> failedPages == 0
    ensures status == Failed <==> failedPages > 0 && failedPages == totalPages
    ensures status == CompletedWithErrors <==> failedPages > 0 && failedPages != totalPages
  {
    if failedPages > 0 then (if failedPages == totalPages then Failed else CompletedWithErrors)
    else Completed
  }

  /** The top-level handler: status "failed", then the cleanup. */
  function Abort(s: RunState, id: string): Step {
    if id !in s.docs then Step(s, Some(StoreRaised(NotFound)))
    else
      var docs := ApplyUpdate(s.docs, id, DocumentUpdate(None, Some(Failed)));
      if Lookup(docs, id).Err? then Step(RunState(docs, s.active), Some(StoreRaised(InvalidResult)))
      else Step(RunState(docs, s.active - {id}), None)
  }

  /** After the loop: the final status is written and the entry removed. */
  function Finish(s: RunState, id: string, totalPages: int): Step {
    if id !in s.active then Abort(s, id)
    else if id !in s.docs then Abort(s, id)
    else
      var docs := ApplyUpdate(s.docs, id, DocumentUpdate(None, Some(FinalStatus(s.active[id].failedPages, totalPages))));
      if Lookup(docs, id).Err? then Abort(RunState(docs, s.active), id)
      else Step(RunState(docs, s.active - {id}), None)
  }

  function Started(s: RunState, id: string, totalPages: int, startTime: real): RunState {
    RunState(s.docs, s.active[id := Tracking(startTime, totalPages, 0, 0)])
  }

  /** `_process_document_async` from start to end. */
  function Run(s: RunState, id: string, outcomes: seq<Result<BrandDetectionCreate, DetectionError>>, totalPages: int,
               startTime: real, clock: nat -> real, cancelAt: Option<nat>): Step {
    var st := PagesFrom(Started(s, id, totalPages, startTime), id, outcomes, clock, cancelAt, 0);
    if st.escape.Some? then Abort(st.state, id) else Finish(st.state, id, totalPages)
  }

  /** The detection of each page, numbered from 1. */
  function Outcomes(replies: seq<Option<string>>, parse: string -> Option<Json>): (r: seq<Result<BrandDetectionCreate, DetectionError>>)
    ensures |r| == |replies|
    ensures forall i :: 0 <= i < |r| ==> r[i] == DetectBrandsInImage(replies[i], parse, i + 1)
  {
    seq(|replies|, i requires 0 <= i < |replies| => DetectBrandsInImage(replies[i], parse, i + 1))
  }

  class ProcessingService {
    var activeProcesses: map<string, Tracking>
    const store: FirebaseService

    constructor (store: FirebaseService)
      ensures this.store == store && activeProcesses == map[]
    {
      this.store := store;
      activeProcesses := map[];
    }

    /** A copy of the tracking map. */
    method GetActiveProcesses() returns (snapshot: map<string, Tracking>)
      ensures snapshot == activeProcesses
    {
      snapshot := activeProcesses;
    }

    method CancelProcessing(id: string) returns (cancelled: bool)
      modifies this, store
      ensures CancelResult(RunState(store.docs, activeProcesses), cancelled)
        == Cancel(RunState(old(store.docs), old(activeProcesses)), id)
    {
      var r := store.UpdateDocument(id, DocumentUpdate(None, Some(Cancelled)));
      if r.Err? {
        return false;
      }
      if id in activeProcesses {
        activeProcesses := activeProcesses - {id};
      }
      return true;
    }

    method HandlePageFailure(id: string, pageNumber: int, f: PageFailure) returns (escape: Option<Escape>)
      modifies this, store
      ensures Step(RunState(store.docs, activeProcesses), escape)
        == PageFailed(RunState(old(store.docs), old(activeProcesses)), id, pageNumber, f)
    {
      var w := store.UpdatePageStatus(id, pageNumber, Failed, Some(FailureText(f)));
      if w.Err? {
        return Some(StoreRaised(w.error));
      }
      if id !in activeProcesses {
        return Some(KeyMissing);
      }
      var t := activeProcesses[id];
      activeProcesses := activeProcesses[id := t.(failedPages := t.failedPages + 1)];
      return None;
    }

    method ProcessPage(id: string, i: nat, outcome: Result<BrandDetectionCreate, DetectionError>, now: real, cancelHere: bool)
      returns (escape: Option<Escape>)
      modifies this, store
      ensures Step(RunState(store.docs, activeProcesses), escape)
        == Page(RunState(old(store.docs), old(activeProcesses)), id, i, outcome, now, cancelHere)
    {
      var p := i + 1;
      var w := store.UpdatePageStatus(id, p, Processing, None);
      if w.Err? {
        escape := HandlePageFailure(id, p, StatusWriteFailed);
        return;
      }
      if cancelHere {
        var _ := CancelProcessing(id);
      }
      escape := SaveDetection(id, p, outcome, now);
    }

    method SaveDetection(id: string, p: int, outcome: Result<BrandDetectionCreate, DetectionError>, now: real)
      returns (escape: Option<Escape>)
      modifies this, store
      ensures Step(RunState(store.docs, activeProcesses), escape)
        == Detected(RunState(old(store.docs), old(activeProcesses)), id, p, outcome, now)
    {
      if outcome.Err? {
        escape := HandlePageFailure(id, p, DetectionFailed(outcome.error));
        return;
      }
      if id !in activeProcesses {
        escape := HandlePageFailure(id, p, TrackingMissing(id));
        return;
      }
      var t := activeProcesses[id];
      var saved := store.SaveBrandDetectionResult(id, p, outcome.value, now - t.startTime);
      if saved.Err? {
        escape := HandlePageFailure(id, p, SaveFailed);
        return;
      }
      activeProcesses := activeProcesses[id := t.(processedPages := t.processedPages + 1)];
      return None;
    }

    method AbortRun(id: string) returns (escape: Option<Escape>)
      modifies this, store
      ensures Step(RunState(store.docs, activeProcesses), escape)
        == Abort(RunState(old(store.docs), old(activeProcesses)), id)
    {
      var r := store.UpdateDocument(id, DocumentUpdate(None, Some(Failed)));
      if r.Err? {
        return Some(StoreRaised(r.error));
      }
      if id in activeProcesses {
        activeProcesses := activeProcesses - {id};
      }
      return None;
    }

    method FinishRun(id: string, totalPages: int) returns (escape: Option<Escape>)
      modifies this, store
      ensures Step(RunState(store.docs, activeProcesses), escape)
        == Finish(RunState(old(store.docs), old(activeProcesses)), id, totalPages)
    {
      if id !in activeProcesses {
        escape := AbortRun(id);
        return;
      }
      var status := FinalStatus(activeProcesses[id].failedPages, totalPages);
      var r := store.UpdateDocument(id, DocumentUpdate(None, Some(status)));
      if r.Err? {
        escape := AbortRun(id);
        return;
      }
      activeProcesses := activeProcesses - {id};
      return None;
    }

    /** The whole run; `replies` and `parse` feed the detection of each
        page, `clock(i)` is the time when the `i`-th detection returned, and
        `cancelAt` names the page during whose detection a cancel request
        arrives. */
    method ProcessDocumentAsync(id: string, replies: seq<Option<string>>, parse: string -> Option<Json>,
                                totalPages: int, startTime: real, clock: nat -> real, cancelAt: Option<nat>)
      returns (escape: Option<Escape>)
      modifies this, store
      ensures Step(RunState(store.docs, activeProcesses), escape)
        == Run(RunState(old(store.docs), old(activeProcesses)), id, Outcomes(replies, parse), totalPages, startTime, clock, cancelAt)
    {
      ghost var outcomes := Outcomes(replies, parse);
      activeProcesses := activeProcesses[id := Tracking(startTime, totalPages, 0, 0)];
      ghost var pages := PagesFrom(RunState(store.docs, activeProcesses), id, outcomes, clock, cancelAt, 0);
      var i: nat := 0;
      var raised: Option<Escape> := None;
      while i < |replies| && raised.None?
        invariant i <= |replies|
        invariant raised.None? ==> PagesFrom(RunState(store.docs, activeProcesses), id, outcomes, clock, cancelAt, i) == pages
        invariant raised.Some? ==> Step(RunState(store.docs, activeProcesses), raised) == pages
        decreases |replies| - i
      {
        var outcome := DetectBrandsInImage(replies[i], parse, i + 1);
        raised := ProcessPage(id, i, outcome, clock(i), cancelAt == Some(i));
        i := i + 1;
      }
      if raised.Some? {
        escape := AbortRun(id);
      } else {
        escape := FinishRun(id, totalPages);
      }
    }

    method GetProcessingStatus(id: string) returns (r: Result<Option<ProcessingStatus>, StoreError>)
      ensures r == StatusView(store.docs, id)
    {
      r := store.GetProcessingStatus(id);
    }
  }

  function CountOk(os: seq<Result<BrandDetectionCreate, DetectionError>>): nat {
    if os == [] then 0 else (if os[0].Ok? then 1 else 0) + CountOk(os[1..])
  }

  function CountErr(os: seq<Result<BrandDetectionCreate, DetectionError>>): nat {
    if os == [] then 0 else (if os[0].Err? then 1 else 0) + CountErr(os[1..])
  }

  lemma {:induction false} CountsPartition(os: seq<Result<BrandDetectionCreate, DetectionError>>)
    ensures CountOk(os) + CountErr(os) == |os|
  {
    if os != [] {
      CountsPartition(os[1..]);
    }
  }

  /** Without a cancel request, no page of an existing document raises out
      of the loop, and each page adds one to exactly one of the two
      counters. */
  lemma {:induction false} PagesCounted(s: RunState, id: string, outcomes: seq<Result<BrandDetectionCreate, DetectionError>>,
                                        clock: nat -> real, i: nat)
    requires id in s.docs && id in s.active && i <= |outcomes|
    ensures PagesFrom(s, id, outcomes, clock, None, i).escape.None?
    ensures id in PagesFrom(s, id, outcomes, clock, None, i).state.docs
    ensures id in PagesFrom(s, id, outcomes, clock, None, i).state.active
    ensures PagesFrom(s, id, outcomes, clock, None, i).state.active[id] == s.active[id].(
      processedPages := s.active[id].processedPages + CountOk(outcomes[i..]),
      failedPages := s.active[id].failedPages + CountErr(outcomes[i..]))
    decreases |outcomes| - i
  {
    if i < |outcomes| {
      var st := Page(s, id, i, outcomes[i], clock(i), false);
      assert outcomes[i..][1..] == outcomes[i + 1..];
      PagesCounted(st.state, id, outcomes, clock, i + 1);
    }
  }

  /** After the loop of a run without cancellation, the entry holds as many
      processed and failed pages as there were successful and failed
      detections, which together are the number of images. */
  lemma RunCounts(s: RunState, id: string, outcomes: seq<Result<BrandDetectionCreate, DetectionError>>,
                  totalPages: int, startTime: real, clock: nat -> real)
    requires id in s.docs
    ensures PagesFrom(Started(s, id, totalPages, startTime), id, outcomes, clock, None, 0).escape.None?
    ensures id in PagesFrom(Started(s, id, totalPages, startTime), id, outcomes, clock, None, 0).state.active
    ensures PagesFrom(Started(s, id, totalPages, startTime), id, outcomes, clock, None, 0).state.active[id]
      == Tracking(startTime, totalPages, CountOk(outcomes), CountErr(outcomes))
    ensures CountOk(outcomes) + CountErr(outcomes) == |outcomes|
  {
    assert outcomes[0..] == outcomes;
    PagesCounted(Started(s, id, totalPages, startTime), id, outcomes, clock, 0);
    CountsPartition(outcomes);
  }

  predicate AllComplete(results: map<int, Slot>) {
    forall k :: k in results ==> Complete(results[k])
  }

  /** When every detection succeeds, every slot is complete after the loop. */
  lemma {:induction false} PagesAllSucceed(s: RunState, id: string, outcomes: seq<Result<BrandDetectionCreate, DetectionError>>,
                                           clock: nat -> real, i: nat)
    requires id in s.docs && id in s.active && i <= |outcomes|
    requires AllComplete(s.docs[id].results)
    requires forall j :: i <= j < |outcomes| ==> outcomes[j].Ok?
    ensures id in PagesFrom(s, id, outcomes, clock, None, i).state.docs
    ensures AllComplete(PagesFrom(s, id, outcomes, clock, None, i).state.docs[id].results)
    decreases |outcomes| - i
  {
    if i < |outcomes| {
      var st := Page(s, id, i, outcomes[i], clock(i), false);
      var results := st.state.docs[id].results;
      assert results == s.docs[id].results[i + 1 := CompletedSlot(outcomes[i].value, clock(i) - s.active[id].startTime)];
      PagesAllSucceed(st.state, id, outcomes, clock, i + 1);
    }
  }

  /** A run of an existing, readable document whose detections all succeed
      ends with status "completed" and without its tracking entry. */
  lemma CompletedRun(s: RunState, id: string, outcomes: seq<Result<BrandDetectionCreate, DetectionError>>,
                     totalPages: int, startTime: real, clock: nat -> real)
    requires id in s.docs && View(s.docs[id]).Ok?
    requires forall i :: 0 <= i < |outcomes| ==> outcomes[i].Ok?
    ensures Run(s, id, outcomes, totalPages, startTime, clock, None).escape.None?
    ensures id in Run(s, id, outcomes, totalPages, startTime, clock, None).state.docs
    ensures Run(s, id, outcomes, totalPages, startTime, clock, None).state.docs[id].status == Completed
    ensures id !in Run(s, id, outcomes, totalPages, startTime, clock, None).state.active
  {
    var s0 := Started(s, id, totalPages, startTime);
    DetectionsReadable(s.docs[id].results);
    RunCounts(s, id, outcomes, totalPages, startTime, clock);
    PagesAllSucceed(s0, id, outcomes, clock, 0);
    NoErrors(outcomes);
    var st := PagesFrom(s0, id, outcomes, clock, None, 0);
    var docs := ApplyUpdate(st.state.docs, id, DocumentUpdate(None, Some(Completed)));
    DetectionsReadable(docs[id].results);
  }

  lemma {:induction false} NoErrors(os: seq<Result<BrandDetectionCreate, DetectionError>>)
    requires forall i :: 0 <= i < |os| ==> os[i].Ok?
    ensures CountErr(os) == 0
  {
    if os != [] {
      NoErrors(os[1..]);
    }
  }

  /** Before page `i`: the document and its tracking entry exist, and the
      slot of page `k + 1` is absent until that page runs, then holds only
      a status. */
  predicate SlotPending(s: RunState, id: string, k: nat, i: nat) {
    && id in s.docs && id in s.active
    && (i <= k ==> k + 1 !in s.docs[id].results)
    && (k < i ==> k + 1 in s.docs[id].results && !Complete(s.docs[id].results[k + 1]))
  }

  /** A failed detection on a page that had no saved result leaves a slot
      with only a status and an error message, and no later page touches it. */
  lemma {:induction false} PagesKeepFailedSlot(s: RunState, id: string, outcomes: seq<Result<BrandDetectionCreate, DetectionError>>,
                                               clock: nat -> real, i: nat, k: nat)
    requires i <= |outcomes| && k < |outcomes| && outcomes[k].Err?
    requires SlotPending(s, id, k, i)
    ensures SlotPending(PagesFrom(s, id, outcomes, clock, None, i).state, id, k, |outcomes|)
    decreases |outcomes| - i
  {
    if i < |outcomes| {
      var st := Page(s, id, i, outcomes[i], clock(i), false);
      PageKeepsFailedSlot(s, id, outcomes[i], clock(i), i, k, outcomes[k]);
      PagesKeepFailedSlot(st.state, id, outcomes, clock, i + 1, k);
    }
  }

  /** One page without a cancel: it does not escape, keeps the document
      and its tracking entry, and leaves the failed page's slot as it is. */
  lemma PageKeepsFailedSlot(s: RunState, id: string, outcome: Result<BrandDetectionCreate, DetectionError>,
                            now: real, i: nat, k: nat, failed: Result<BrandDetectionCreate, DetectionError>)
    requires i == k ==> outcome == failed && failed.Err?
    requires SlotPending(s, id, k, i)
    ensures Page(s, id, i, outcome, now, false).escape.None?
    ensures SlotPending(Page(s, id, i, outcome, now, false).state, id, k, i + 1)
  {
    var st := Page(s, id, i, outcome, now, false);
    if i == k {
      assert st.state.docs[id].results[k + 1].pageNumber.None?;
    } else if i < k {
      assert k + 1 !in st.state.docs[id].results;
    } else {
      assert st.state.docs[id].results[k + 1] == s.docs[id].results[k + 1];
    }
  }

  /** A failed page of a fresh document cannot be read back, so writing the
      final status raises: the top-level handler overwrites the status with
      "failed", raises again when reading back, and the tracking entry is
      never removed. */
  lemma FailedPageLeaks(s: RunState, id: string, outcomes: seq<Result<BrandDetectionCreate, DetectionError>>,
                        totalPages: int, startTime: real, clock: nat -> real, k: nat)
    requires id in s.docs
    requires k < |outcomes| && outcomes[k].Err? && k + 1 !in s.docs[id].results
    ensures Run(s, id, outcomes, totalPages, startTime, clock, None).escape == Some(StoreRaised(InvalidResult))
    ensures id in Run(s, id, outcomes, totalPages, startTime, clock, None).state.docs
    ensures Run(s, id, outcomes, totalPages, startTime, clock, None).state.docs[id].status == Failed
    ensures id in Run(s, id, outcomes, totalPages, startTime, clock, None).state.active
  {
    var s0 := Started(s, id, totalPages, startTime);
    RunCounts(s, id, outcomes, totalPages, startTime, clock);
    PagesKeepFailedSlot(s0, id, outcomes, clock, 0, k);
    var st := PagesFrom(s0, id, outcomes, clock, None, 0);
    var status := FinalStatus(st.state.active[id].failedPages, totalPages);
    var docs1 := ApplyUpdate(st.state.docs, id, DocumentUpdate(None, Some(status)));
    DetectionsReadable(docs1[id].results);
    var docs2 := ApplyUpdate(docs1, id, DocumentUpdate(None, Some(Failed)));
    DetectionsReadable(docs2[id].results);
  }

  /** Every page of the run already has a complete slot. */
  predicate Reprocessed(s: RunState, id: string, n: nat) {
    id in s.docs && AllComplete(s.docs[id].results)
    && forall p :: 1 <= p <= n ==> p in s.docs[id].results
  }

  /** A page that already has a complete slot keeps it complete, whatever
      its detection returns. */
  lemma PageOverComplete(s: RunState, id: string, n: nat, i: nat, outcome: Result<BrandDetectionCreate, DetectionError>, now: real)
    requires Reprocessed(s, id, n) && id in s.active && i < n
    ensures Page(s, id, i, outcome, now, false).escape.None?
    ensures Reprocessed(Page(s, id, i, outcome, now, false).state, id, n)
    ensures id in Page(s, id, i, outcome, now, false).state.active
  {
    var s1 := RunState(SetPageStatus(s.docs, id, i + 1, Processing, None), s.active);
    assert Reprocessed(s1, id, n);
  }

  /** A status write on a page that has a complete slot keeps every slot
      complete. */
  lemma StatusKeepsReprocessed(s: RunState, id: string, n: nat, p: int, status: string, message: Option<string>,
                               active: map<string, Tracking>)
    requires Reprocessed(s, id, n) && p in s.docs[id].results
    ensures Reprocessed(RunState(SetPageStatus(s.docs, id, p, status, message), active), id, n)
  {
  }

  /** The cancel request on a page with a complete slot: the status write
      and the cancel's read-back go through, and the entry is removed. */
  lemma CancelOverComplete(s: RunState, id: string, n: nat, p: int) returns (s2: RunState)
    requires Reprocessed(s, id, n) && p in s.docs[id].results
    ensures s2 == Cancel(RunState(SetPageStatus(s.docs, id, p, Processing, None), s.active), id).state
    ensures Reprocessed(s2, id, n) && p in s2.docs[id].results && id !in s2.active
  {
    var s1 := RunState(SetPageStatus(s.docs, id, p, Processing, None), s.active);
    StatusKeepsReprocessed(s, id, n, p, Processing, None, s.active);
    var docs := ApplyUpdate(s1.docs, id, DocumentUpdate(None, Some(Cancelled)));
    DetectionsReadable(docs[id].results);
    s2 := Cancel(s1, id).state;
  }

  /** The failure handler of a page whose tracking entry is gone raises a
      `KeyError` after writing status "failed". */
  lemma FailedWithoutEntry(s: RunState, id: string, n: nat, p: int, f: PageFailure)
    requires Reprocessed(s, id, n) && p in s.docs[id].results && id !in s.active
    ensures CancelEscaped(PageFailed(s, id, p, f), id, n)
  {
    StatusKeepsReprocessed(s, id, n, p, Failed, Some(FailureText(f)), s.active);
  }

  /** The page being cancelled: the cancel reads back a complete document,
      so it removes the entry, and the page then raises a `KeyError` out of
      its handler. */
  lemma PageCancelled(s: RunState, id: string, n: nat, i: nat, outcome: Result<BrandDetectionCreate, DetectionError>, now: real)
    requires Reprocessed(s, id, n) && id in s.active && i < n
    ensures CancelEscaped(Page(s, id, i, outcome, now, true), id, n)
  {
    var s2 := CancelOverComplete(s, id, n, i + 1);
    var f := if outcome.Err? then DetectionFailed(outcome.error) else TrackingMissing(id);
    FailedWithoutEntry(s2, id, n, i + 1, f);
    assert Page(s, id, i, outcome, now, true) == PageFailed(s2, id, i + 1, f);
  }

  /** What a cancelled page leaves: a `KeyError` escaping, every slot still
      complete, and no tracking entry. */
  predicate CancelEscaped(st: Step, id: string, n: nat) {
    st.escape == Some(KeyMissing) && Reprocessed(st.state, id, n) && id !in st.state.active
  }

  /** Up to the page being cancelled nothing raises; that page raises. */
  lemma {:induction false} PagesUntilCancel(s: RunState, id: string, outcomes: seq<Result<BrandDetectionCreate, DetectionError>>,
                                            clock: nat -> real, i: nat, k: nat)
    requires Reprocessed(s, id, |outcomes|) && id in s.active
    requires i <= k < |outcomes|
    ensures CancelEscaped(PagesFrom(s, id, outcomes, clock, Some(k), i), id, |outcomes|)
    decreases |outcomes| - i
  {
    if i == k {
      CancelledPageStops(s, id, outcomes, clock, k);
    } else {
      var next := PageBeforeCancel(s, id, outcomes, clock, i, k);
      PagesUntilCancel(next, id, outcomes, clock, i + 1, k);
    }
  }

  /** The loop stops at a page that raised. */
  lemma CancelledPageStops(s: RunState, id: string, outcomes: seq<Result<BrandDetectionCreate, DetectionError>>,
                           clock: nat -> real, k: nat)
    requires Reprocessed(s, id, |outcomes|) && id in s.active && k < |outcomes|
    ensures CancelEscaped(PagesFrom(s, id, outcomes, clock, Some(k), k), id, |outcomes|)
  {
    PageCancelled(s, id, |outcomes|, k, outcomes[k], clock(k));
  }

  /** A page before the cancelled one goes through and the loop goes on. */
  lemma PageBeforeCancel(s: RunState, id: string, outcomes: seq<Result<BrandDetectionCreate, DetectionError>>,
                         clock: nat -> real, i: nat, k: nat) returns (next: RunState)
    requires Reprocessed(s, id, |outcomes|) && id in s.active && i < k < |outcomes|
    ensures Reprocessed(next, id, |outcomes|) && id in next.active
    ensures CancelEscaped(PagesFrom(next, id, outcomes, clock, Some(k), i + 1), id, |outcomes|) ==>
      CancelEscaped(PagesFrom(s, id, outcomes, clock, Some(k), i), id, |outcomes|)
  {
    PageOverComplete(s, id, |outcomes|, i, outcomes[i], clock(i));
    next := Page(s, id, i, outcomes[i], clock(i), false).state;
  }

  /** Cancelling a run whose pages all have saved results removes the entry,
      but the loop then raises, and the top-level handler overwrites
      "cancelled" with "failed". */
  lemma CancelledRunEndsFailed(s: RunState, id: string, outcomes: seq<Result<BrandDetectionCreate, DetectionError>>,
                               totalPages: int, startTime: real, clock: nat -> real, k: nat)
    requires Reprocessed(s, id, |outcomes|)
    requires k < |outcomes|
    ensures Run(s, id, outcomes, totalPages, startTime, clock, Some(k)).escape.None?
    ensures id in Run(s, id, outcomes, totalPages, startTime, clock, Some(k)).state.docs
    ensures Run(s, id, outcomes, totalPages, startTime, clock, Some(k)).state.docs[id].status == Failed
    ensures id !in Run(s, id, outcomes, totalPages, startTime, clock, Some(k)).state.active
  {
    var s0 := Started(s, id, totalPages, startTime);
    PagesUntilCancel(s0, id, outcomes, clock, 0, k);
    var st := PagesFrom(s0, id, outcomes, clock, Some(k), 0);
    var docs := ApplyUpdate(st.state.docs, id, DocumentUpdate(None, Some(Failed)));
    DetectionsReadable(docs[id].results);
  }

  /** A run for an id the store does not have writes nothing: the first
      status write raises, so does the handler's, and the top-level handler's
      update raises out of the task, leaving the fresh entry behind. */
  lemma MissingDocumentRun(s: RunState, id: string, outcomes: seq<Result<BrandDetectionCreate, DetectionError>>,
                           totalPages: int, startTime: real, clock: nat -> real, cancelAt: Option<nat>)
    requires id !in s.docs
    ensures Run(s, id, outcomes, totalPages, startTime, clock, cancelAt)
      == Step(Started(s, id, totalPages, startTime), Some(StoreRaised(NotFound)))
  {
  }

  /** Cancelling a readable document removes its entry; cancelling an
      unreadable one still writes "cancelled" but reports failure and keeps
      the entry. */
  lemma CancelReadBack(s: RunState, id: string)
    requires id in s.docs
    ensures Cancel(s, id).state.docs[id].status == Cancelled
    ensures View(s.docs[id]).Ok? ==> Cancel(s, id).cancelled && id !in Cancel(s, id).state.active
    ensures View(s.docs[id]).Err? ==> !Cancel(s, id).cancelled && Cancel(s, id).state.active == s.active
  {
    var docs := ApplyUpdate(s.docs, id, DocumentUpdate(None, Some(Cancelled)));
    DetectionsReadable(docs[id].results);
    DetectionsReadable(s.docs[id].results);
  }
  /** Two states that differ at most in the status field of `id`'s record. */
  predicate SameButStatus(a: RunState, b: RunState, id: string) {
    && id in a.docs && id in b.docs && a.active == b.active
    && b.docs == a.docs[id := a.docs[id].(status := b.docs[id].status)]
  }

  /** Two steps that raise alike and leave states differing at most in the
      status of `id`'s record. */
  predicate Agree(x: Step, y: Step, id: string) {
    x.escape == y.escape && SameButStatus(x.state, y.state, id)
  }

  /** The cancel requested while a page with no saved result is being
      detected: that page's slot holds only the status "processing", so the
      read-back raises; the call writes "cancelled", reports failure and
      keeps the tracking entry. */
  lemma CancelOnFreshPage(s: RunState, id: string, p: int)
    requires id in s.docs && p !in s.docs[id].results
    ensures !Cancel(RunState(SetPageStatus(s.docs, id, p, Processing, None), s.active), id).cancelled
    ensures Cancel(RunState(SetPageStatus(s.docs, id, p, Processing, None), s.active), id).state.active == s.active
    ensures SameButStatus(RunState(SetPageStatus(s.docs, id, p, Processing, None), s.active),
                          Cancel(RunState(SetPageStatus(s.docs, id, p, Processing, None), s.active), id).state, id)
  {
    var s1 := RunState(SetPageStatus(s.docs, id, p, Processing, None), s.active);
    assert !Complete(s1.docs[id].results[p]);
    DetectionsReadable(s1.docs[id].results);
    CancelReadBack(s1, id);
  }

  /** The rest of a page does the same on two states that differ only in
      the document's status. */
  lemma DetectedIgnoresStatus(a: RunState, b: RunState, id: string, p: int,
                              outcome: Result<BrandDetectionCreate, DetectionError>, now: real)
    requires SameButStatus(a, b, id)
    ensures Agree(Detected(a, id, p, outcome, now), Detected(b, id, p, outcome, now), id)
  {
  }

  /** A page without a cancel does the same on two states that differ only
      in the document's status. */
  lemma PageIgnoresStatus(a: RunState, b: RunState, id: string, i: nat,
                          outcome: Result<BrandDetectionCreate, DetectionError>, now: real)
    requires SameButStatus(a, b, id)
    ensures Agree(Page(a, id, i, outcome, now, false), Page(b, id, i, outcome, now, false), id)
  {
    var a1 := RunState(SetPageStatus(a.docs, id, i + 1, Processing, None), a.active);
    var b1 := RunState(SetPageStatus(b.docs, id, i + 1, Processing, None), b.active);
    DetectedIgnoresStatus(a1, b1, id, i + 1, outcome, now);
  }

  /** The pages after the cancelled one do the same on two states that
      differ only in the document's status. */
  lemma {:induction false} PagesIgnoreStatus(a: RunState, b: RunState, id: string,
                                             outcomes: seq<Result<BrandDetectionCreate, DetectionError>>,
                                             clock: nat -> real, k: nat, i: nat)
    requires SameButStatus(a, b, id) && k < i
    ensures Agree(PagesFrom(a, id, outcomes, clock, None, i), PagesFrom(b, id, outcomes, clock, Some(k), i), id)
    decreases |outcomes| - i
  {
    if i < |outcomes| {
      PageIgnoresStatus(a, b, id, i, outcomes[i], clock(i));
      var sa := Page(a, id, i, outcomes[i], clock(i), false);
      var sb := Page(b, id, i, outcomes[i], clock(i), false);
      if sa.escape.None? {
        PagesIgnoreStatus(sa.state, sb.state, id, outcomes, clock, k, i + 1);
      }
    }
  }

  /** The cancelled page, on a document with no saved result for it: the
      cancel fails, so the page ends as without the cancel, but for the
      document's status. */
  lemma FreshCancelledPage(s: RunState, id: string, k: nat, outcome: Result<BrandDetectionCreate, DetectionError>, now: real)
    requires id in s.docs && k + 1 !in s.docs[id].results
    ensures Agree(Page(s, id, k, outcome, now, false), Page(s, id, k, outcome, now, true), id)
  {
    var s1 := RunState(SetPageStatus(s.docs, id, k + 1, Processing, None), s.active);
    CancelOnFreshPage(s, id, k + 1);
    DetectedIgnoresStatus(s1, Cancel(s1, id).state, id, k + 1, outcome, now);
  }

  /** A page before the cancelled one writes only its own slot. */
  lemma PageBeforeFreshCancel(s: RunState, id: string, i: nat, k: nat, outcome: Result<BrandDetectionCreate, DetectionError>, now: real)
    requires id in s.docs && k + 1 !in s.docs[id].results && i != k
    ensures id in Page(s, id, i, outcome, now, false).state.docs
    ensures k + 1 !in Page(s, id, i, outcome, now, false).state.docs[id].results
  {
  }

  /** Up to and through the cancelled page, on a document with no saved
      result for that page: the pages before it run as without a cancel
      and keep its slot absent, and the cancel itself fails, so the two
      runs differ only in the document's status. */
  lemma {:induction false} PagesToFreshCancel(s: RunState, id: string, outcomes: seq<Result<BrandDetectionCreate, DetectionError>>,
                                              clock: nat -> real, i: nat, k: nat)
    requires id in s.docs && k + 1 !in s.docs[id].results && i <= k
    ensures Agree(PagesFrom(s, id, outcomes, clock, None, i), PagesFrom(s, id, outcomes, clock, Some(k), i), id)
    decreases |outcomes| - i
  {
    if i < |outcomes| {
      var st := Page(s, id, i, outcomes[i], clock(i), false);
      if i == k {
        FreshCancelledPage(s, id, k, outcomes[k], clock(k));
        var sc := Page(s, id, k, outcomes[k], clock(k), true);
        if st.escape.None? {
          PagesIgnoreStatus(st.state, sc.state, id, outcomes, clock, k, k + 1);
        }
      } else {
        PageBeforeFreshCancel(s, id, i, k, outcomes[i], clock(i));
        if st.escape.None? {
          PagesToFreshCancel(st.state, id, outcomes, clock, i + 1, k);
        }
      }
    }
  }

  /** A status write leaves the same table on two states that differ only
      in the document's status. */
  lemma StatusWriteAgrees(a: RunState, b: RunState, id: string, status: string)
    requires SameButStatus(a, b, id)
    ensures ApplyUpdate(a.docs, id, DocumentUpdate(None, Some(status))) == ApplyUpdate(b.docs, id, DocumentUpdate(None, Some(status)))
  {
    assert Applied(a.docs[id], DocumentUpdate(None, Some(status))) == Applied(b.docs[id], DocumentUpdate(None, Some(status)));
  }

  /** The top-level handler overwrites the status, so it ends two states
      that differ only there in the same way. */
  lemma AbortIgnoresStatus(a: RunState, b: RunState, id: string)
    requires SameButStatus(a, b, id)
    ensures Abort(a, id) == Abort(b, id)
  {
    StatusWriteAgrees(a, b, id, Failed);
  }

  /** So does the final status write. */
  lemma FinishIgnoresStatus(a: RunState, b: RunState, id: string, totalPages: int)
    requires SameButStatus(a, b, id)
    ensures Finish(a, id, totalPages) == Finish(b, id, totalPages)
  {
    if id in a.active {
      var status := FinalStatus(a.active[id].failedPages, totalPages);
      StatusWriteAgrees(a, b, id, status);
      var docs := ApplyUpdate(a.docs, id, DocumentUpdate(None, Some(status)));
      if Lookup(docs, id).Err? {
        assert Finish(a, id, totalPages) == Abort(RunState(docs, a.active), id);
      }
    } else {
      AbortIgnoresStatus(a, b, id);
    }
  }

  /** A cancel during a run on a document with no saved result for the
      cancelled page changes nothing the run leaves behind: the run ends
      exactly as it would without the cancel. */
  lemma FreshCancelIgnored(s: RunState, id: string, outcomes: seq<Result<BrandDetectionCreate, DetectionError>>,
                           totalPages: int, startTime: real, clock: nat -> real, k: nat)
    requires id in s.docs ==> k + 1 !in s.docs[id].results
    ensures Run(s, id, outcomes, totalPages, startTime, clock, Some(k)) == Run(s, id, outcomes, totalPages, startTime, clock, None)
  {
    if id in s.docs {
      var s0 := Started(s, id, totalPages, startTime);
      PagesToFreshCancel(s0, id, outcomes, clock, 0, k);
      var a := PagesFrom(s0, id, outcomes, clock, None, 0);
      var b := PagesFrom(s0, id, outcomes, clock, Some(k), 0);
      if a.escape.Some? {
        AbortIgnoresStatus(a.state, b.state, id);
      } else {
        FinishIgnoresStatus(a.state, b.state, id, totalPages);
      }
    } else {
      MissingDocumentRun(s, id, outcomes, totalPages, startTime, clock, Some(k));
      MissingDocumentRun(s, id, outcomes, totalPages, startTime, clock, None);
    }
  }

  /** The runs the service starts: on the record `create_document` has just
      made, a cancel during any page is ignored. The run completes and
      removes its entry when every detection succeeds, and otherwise ends
      with status "failed", a read-back error and the entry left behind. */
  lemma NewRecordCancelIgnored(s: RunState, id: string, filename: string, totalPages: int, now: string,
                               outcomes: seq<Result<BrandDetectionCreate, DetectionError>>,
                               startTime: real, clock: nat -> real, k: nat)
    requires id in s.docs && s.docs[id] == NewRecord(id, filename, totalPages, now)
    ensures Run(s, id, outcomes, totalPages, startTime, clock, Some(k)) == Run(s, id, outcomes, totalPages, startTime, clock, None)
    ensures (forall j :: 0 <= j < |outcomes| ==> outcomes[j].Ok?) ==>
      && Run(s, id, outcomes, totalPages, startTime, clock, Some(k)).escape.None?
      && id in Run(s, id, outcomes, totalPages, startTime, clock, Some(k)).state.docs
      && Run(s, id, outcomes, totalPages, startTime, clock, Some(k)).state.docs[id].status == Completed
      && id !in Run(s, id, outcomes, totalPages, startTime, clock, Some(k)).state.active
    ensures (exists j :: 0 <= j < |outcomes| && outcomes[j].Err?) ==>
      && Run(s, id, outcomes, totalPages, startTime, clock, Some(k)).escape == Some(StoreRaised(InvalidResult))
      && id in Run(s, id, outcomes, totalPages, startTime, clock, Some(k)).state.docs
      && Run(s, id, outcomes, totalPages, startTime, clock, Some(k)).state.docs[id].status == Failed
      && id in Run(s, id, outcomes, totalPages, startTime, clock, Some(k)).state.active
  {
    FreshCancelIgnored(s, id, outcomes, totalPages, startTime, clock, k);
    if forall j :: 0 <= j < |outcomes| ==> outcomes[j].Ok? {
      DetectionsReadable(s.docs[id].results);
      CompletedRun(s, id, outcomes, totalPages, startTime, clock);
    } else {
      var j :| 0 <= j < |outcomes| && outcomes[j].Err?;
      FailedPageLeaks(s, id, outcomes, totalPages, startTime, clock, j);
    }
  }
}
