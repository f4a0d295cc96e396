// The PDF service: validation of an uploaded PDF, the page-batching loop that
// rasterises it into per-page grayscale files, and the registry of temporary
// directories. The PDF reader, the rasteriser and the file system are
// abstract: a reading of the file, the outcome of each batch conversion and
// whether removing a directory fails are parameters.

module Pdf {
  import opened Wrappers
  import opened Strings

  /** `os.path.join` of two POSIX path components. */
  function PathJoin(a: string, b: string): (r: string)
    ensures StartsWith(b, "/") ==> r == b
    ensures !StartsWith(b, "/") ==> EndsWith(r, b) && StartsWith(r, a)
    ensures !StartsWith(b, "/") && a != [] && !EndsWith(a, "/") ==> r == a + "/" + b
  {
    if StartsWith(b, "/") then b
    else if a == [] || EndsWith(a, "/") then a + b
    else a + "/" + b
  }

  // ---------------------------------------------------------------------
  // Validation

  /** What the PDF reader makes of the bytes: it raises a read error, raises
      something else, or opens the file and reports whether it is encrypted
      and how many pages it has. */
  datatype PdfReading =
    | ReadError(message: string)
    | OtherError(message: string)
    | Opened(encrypted: bool, pageCount: nat)

  /** `(is_valid, error_message, total_pages)`. */
  datatype Validation = Validation(isValid: bool, errorMessage: string, totalPages: nat)

  const EncryptedMessage := "PDF is encrypted and cannot be processed"
  const EmptyMessage := "PDF is empty"

  /** `_validate_pdf_sync`: encryption is checked before the page count. */
  function ValidatePdf(reading: PdfReading): (v: Validation)
    ensures v.isValid <==> reading.Opened? && !reading.encrypted && reading.pageCount > 0
    ensures v.isValid ==> v.errorMessage == [] && v.totalPages == reading.pageCount && v.totalPages >= 1
    ensures !v.isValid ==> v.totalPages == 0 && v.errorMessage != []
    ensures reading.Opened? && reading.encrypted ==> v.errorMessage == EncryptedMessage
    ensures reading.Opened? && !reading.encrypted && reading.pageCount == 0 ==> v.errorMessage == EmptyMessage
    ensures reading.ReadError? ==> v.errorMessage == "Invalid PDF file: " + reading.message
    ensures reading.OtherError? ==> v.errorMessage == "Error reading PDF: " + reading.message
  {
    match reading
    case ReadError(m) => Validation(false, "Invalid PDF file: " + m, 0)
    case OtherError(m) => Validation(false, "Error reading PDF: " + m, 0)
    case Opened(encrypted, n) =>
      if encrypted then Validation(false, EncryptedMessage, 0)
      else if n == 0 then Validation(false, EmptyMessage, 0)
      else Validation(true, "", n)
  }

  // ---------------------------------------------------------------------
  // Page files

  /** `f"page_{page_number:04d}.png"` for a page number. */
  function PageFileName(p: nat): (r: string)
    ensures StartsWith(r, "page_") && EndsWith(r, ".png")
    ensures |r| >= 13
  {
    "page_" + ZeroPad(NatToString(p), 4) + ".png"
  }

  /** Distinct pages get distinct file names, even past 9999 where the
      padding no longer applies. */
  lemma PageFileNameInjective(p: nat, q: nat)
    requires PageFileName(p) == PageFileName(q)
    ensures p == q
  {
    var a := ZeroPad(NatToString(p), 4);
    var b := ZeroPad(NatToString(q), 4);
    assert PageFileName(p)[5..|PageFileName(p)| - 4] == a;
    assert PageFileName(q)[5..|PageFileName(q)| - 4] == b;
    ParseZeroPad(NatToString(p), 4);
    ParseZeroPad(NatToString(q), 4);
    ParseNatToString(p);
    ParseNatToString(q);
  }

  /** Pages below 10000 get exactly four digits. */
  lemma PageFileNameWidth(p: nat)
    requires p < 10000
    ensures |PageFileName(p)| == 13
  {
    NatToStringShort(p);
  }

  lemma {:induction false} NatToStringShort(p: nat)
    requires p < 10000
    ensures p < 10 ==> |NatToString(p)| == 1
    ensures p < 100 ==> |NatToString(p)| <= 2
    ensures p < 1000 ==> |NatToString(p)| <= 3
    ensures |NatToString(p)| <= 4
  {
    if p >= 10 {
      NatToStringShort(p / 10);
    }
  }

  /** The page numbers whose conversion succeeded, numbered from `start`:
      `saved[i]` says whether the `i`-th image was converted and saved. */
  function SavedPages(start: int, saved: seq<bool>): (r: seq<int>)
    ensures |r| <= |saved|
    ensures forall k :: 0 <= k < |r| ==> start <= r[k] < start + |saved|
  {
    if saved == [] then []
    else
      var prev := SavedPages(start, saved[..|saved| - 1]);
      if saved[|saved| - 1] then prev + [start + |saved| - 1] else prev
  }

  predicate StrictlyIncreasing(xs: seq<int>) {
    forall i, j :: 0 <= i < j < |xs| ==> xs[i] < xs[j]
  }

  /** The saved pages are in strictly increasing order, and a page is there
      exactly when its conversion succeeded. */
  lemma {:induction false} SavedPagesOrdered(start: int, saved: seq<bool>)
    ensures StrictlyIncreasing(SavedPages(start, saved))
    ensures forall i :: 0 <= i < |saved| ==> (start + i in SavedPages(start, saved) <==> saved[i])
  {
    if saved != [] {
      var init := saved[..|saved| - 1];
      SavedPagesOrdered(start, init);
      forall i | 0 <= i < |saved|
        ensures start + i in SavedPages(start, saved) <==> saved[i]
      {
        if i < |init| {
          assert saved[i] == init[i];
        }
      }
    }
  }

  /** When every image is saved, the pages are `start, start+1, …`. */
  lemma {:induction false} SavedPagesAll(start: int, saved: seq<bool>)
    requires forall i :: 0 <= i < |saved| ==> saved[i]
    ensures SavedPages(start, saved) == PageRange(start, start + |saved| - 1)
  {
    if saved != [] {
      SavedPagesAll(start, saved[..|saved| - 1]);
    }
  }

  /** `lo, lo+1, …, hi`; empty when `hi < lo`. */
  function PageRange(lo: int, hi: int): (r: seq<int>)
    ensures |r| == if hi < lo then 0 else hi - lo + 1
    ensures forall k :: 0 <= k < |r| ==> r[k] == lo + k
  {
    if hi < lo then [] else seq(hi - lo + 1, k requires 0 <= k <= hi - lo => lo + k)
  }

  lemma PageRangeSplit(lo: int, mid: int, hi: int)
    requires lo <= mid + 1 && mid <= hi
    ensures PageRange(lo, mid) + PageRange(mid + 1, hi) == PageRange(lo, hi)
  {
  }

  /** The file path of each page in a directory. */
  function Paths(dir: string, pages: seq<int>): (r: seq<string>)
    requires forall k :: 0 <= k < |pages| ==> pages[k] >= 0
    ensures |r| == |pages|
    ensures forall k :: 0 <= k < |r| ==> r[k] == PathJoin(dir, PageFileName(pages[k]))
  {
    seq(|pages|, k requires 0 <= k < |pages| => PathJoin(dir, PageFileName(pages[k])))
  }

  /** Distinct pages in one directory have distinct paths. */
  lemma PathsDistinct(dir: string, pages: seq<int>, i: nat, j: nat)
    requires forall k :: 0 <= k < |pages| ==> pages[k] >= 0
    requires i < |pages| && j < |pages| && pages[i] != pages[j]
    ensures Paths(dir, pages)[i] != Paths(dir, pages)[j]
  {
    var a := PageFileName(pages[i]);
    var b := PageFileName(pages[j]);
    if Paths(dir, pages)[i] == Paths(dir, pages)[j] {
      assert !StartsWith(a, "/") && !StartsWith(b, "/") by {
        assert a[0] == 'p' && b[0] == 'p';
      }
      var pre := if dir == [] || EndsWith(dir, "/") then dir else dir + "/";
      assert PathJoin(dir, a) == pre + a && PathJoin(dir, b) == pre + b;
      assert a == (pre + a)[|pre|..] && b == (pre + b)[|pre|..];
      PageFileNameInjective(pages[i], pages[j]);
    }
  }

  /** The outcome of one batch conversion: the rasteriser raised with a
      message, or returned its images, each saved or not. */
  type Conversion = Result<seq<bool>, string>

  const ExtractFailurePrefix := "Failed to extract pages as grayscale files: "

  /** `extract_pages_as_grayscale_files`: the paths of the saved pages; a
      rasteriser error is re-raised with a prefix. */
  function Extraction(dir: string, start: nat, conversion: Conversion): (r: Result<seq<string>, string>)
    ensures r.Ok? <==> conversion.Ok?
    ensures r.Err? ==> r.error == ExtractFailurePrefix + conversion.error
  {
    if conversion.Err? then Err(ExtractFailurePrefix + conversion.error)
    else Ok(Paths(dir, SavedPages(start, conversion.value)))
  }

  // ---------------------------------------------------------------------
  // Batches

  function Min(a: int, b: int): int { if a <= b then a else b }

  /** The inclusive page ranges of `range(s, total + 1, batchSize)`. */
  function BatchesFrom(s: nat, total: nat, batchSize: nat): (r: seq<(nat, nat)>)
    requires batchSize >= 1
    ensures forall k :: 0 <= k < |r| ==> s <= r[k].0 <= r[k].1 <= total
    decreases total + 1 - s
  {
    if s > total then [] else [(s, Min(s + batchSize - 1, total))] + BatchesFrom(s + batchSize, total, batchSize)
  }

  function Flatten(ranges: seq<(nat, nat)>): seq<int> {
    if ranges == [] then [] else PageRange(ranges[0].0, ranges[0].1) + Flatten(ranges[1..])
  }

  /** The batches are contiguous, disjoint and cover the pages exactly:
      concatenated in order, they are the pages `s..total`. */
  lemma {:induction false} BatchesCover(s: nat, total: nat, batchSize: nat)
    requires batchSize >= 1
    ensures Flatten(BatchesFrom(s, total, batchSize)) == PageRange(s, total)
    decreases total + 1 - s
  {
    if s <= total {
      var e := Min(s + batchSize - 1, total);
      BatchesCover(s + batchSize, total, batchSize);
      PageRangeSplit(s, e, total);
    }
  }

  /** Every batch holds at most `batchSize` pages and at least one. */
  lemma {:induction false} BatchSizes(s: nat, total: nat, batchSize: nat)
    requires batchSize >= 1
    ensures forall k :: 0 <= k < |BatchesFrom(s, total, batchSize)| ==>
      1 <= BatchesFrom(s, total, batchSize)[k].1 - BatchesFrom(s, total, batchSize)[k].0 + 1 <= batchSize
    decreases total + 1 - s
  {
    if s <= total {
      BatchSizes(s + batchSize, total, batchSize);
    }
  }

  /** The files of the batches from page `s` on, concatenated in batch order;
      the first conversion that raises ends the loop. */
  function FilesFrom(dir: string, s: nat, total: nat, batchSize: nat, convert: (nat, nat) -> Conversion): (r: Result<seq<string>, string>)
    requires batchSize >= 1
    decreases total + 1 - s
  {
    if s > total then Ok([])
    else
      var e := Min(s + batchSize - 1, total);
      match Extraction(dir, s, convert(s, e))
      case Err(m) => Err(m)
      case Ok(files) =>
        match FilesFrom(dir, s + batchSize, total, batchSize, convert)
        case Err(m) => Err(m)
        case Ok(rest) => Ok(files + rest)
  }

  /** The page numbers behind `FilesFrom`. */
  function PagesFrom(s: nat, total: nat, batchSize: nat, convert: (nat, nat) -> Conversion): Result<seq<int>, string>
    requires batchSize >= 1
    decreases total + 1 - s
  {
    if s > total then Ok([])
    else
      var e := Min(s + batchSize - 1, total);
      match convert(s, e)
      case Err(m) => Err(ExtractFailurePrefix + m)
      case Ok(saved) =>
        match PagesFrom(s + batchSize, total, batchSize, convert)
        case Err(m) => Err(m)
        case Ok(rest) => Ok(SavedPages(s, saved) + rest)
  }

  /** The files are the paths of the saved pages, which lie in `s..total`
      and are strictly increasing when no batch returns more images than
      it has pages. */
  lemma {:induction false} FilesArePages(dir: string, s: nat, total: nat, batchSize: nat, convert: (nat, nat) -> Conversion)
    requires batchSize >= 1
    ensures FilesFrom(dir, s, total, batchSize, convert).Ok? <==> PagesFrom(s, total, batchSize, convert).Ok?
    ensures PagesFrom(s, total, batchSize, convert).Err? ==>
      FilesFrom(dir, s, total, batchSize, convert).error == PagesFrom(s, total, batchSize, convert).error
    ensures PagesFrom(s, total, batchSize, convert).Ok? ==>
      (forall k :: 0 <= k < |PagesFrom(s, total, batchSize, convert).value| ==> PagesFrom(s, total, batchSize, convert).value[k] >= s) &&
      FilesFrom(dir, s, total, batchSize, convert).value == Paths(dir, PagesFrom(s, total, batchSize, convert).value)
    decreases total + 1 - s
  {
    if s <= total {
      FilesArePages(dir, s + batchSize, total, batchSize, convert);
      var e := Min(s + batchSize - 1, total);
      var pages := PagesFrom(s, total, batchSize, convert);
      if pages.Ok? {
        var saved := convert(s, e).value;
        var rest := PagesFrom(s + batchSize, total, batchSize, convert).value;
        assert pages.value == SavedPages(s, saved) + rest;
        assert Paths(dir, pages.value) == Paths(dir, SavedPages(s, saved)) + Paths(dir, rest);
      }
    }
  }

  /** Batch conversions that never return more images than pages requested. */
  ghost predicate FaithfulConversions(convert: (nat, nat) -> Conversion) {
    forall s: nat, e: nat :: convert(s, e).Ok? ==> |convert(s, e).value| <= e - s + 1
  }

  /** With conversions that never return more images than pages requested,
      the saved pages are strictly increasing and within `s..total`. */
  lemma {:induction false} PagesOrdered(s: nat, total: nat, batchSize: nat, convert: (nat, nat) -> Conversion)
    requires batchSize >= 1 && FaithfulConversions(convert)
    requires PagesFrom(s, total, batchSize, convert).Ok?
    ensures StrictlyIncreasing(PagesFrom(s, total, batchSize, convert).value)
    ensures forall k :: 0 <= k < |PagesFrom(s, total, batchSize, convert).value| ==>
      s <= PagesFrom(s, total, batchSize, convert).value[k] <= total
    decreases total + 1 - s
  {
    if s <= total {
      var e := Min(s + batchSize - 1, total);
      var saved := convert(s, e).value;
      PagesOrdered(s + batchSize, total, batchSize, convert);
      SavedPagesOrdered(s, saved);
      var head := SavedPages(s, saved);
      var rest := PagesFrom(s + batchSize, total, batchSize, convert).value;
      assert forall k :: 0 <= k < |head| ==> head[k] <= e;
      assert PagesFrom(s, total, batchSize, convert).value == head + rest;
    }
  }

  /** `n` images, all of them converted and saved. */
  function AllSaved(n: nat): (r: seq<bool>)
    ensures |r| == n && forall i :: 0 <= i < n ==> r[i]
  {
    seq(n, _ => true)
  }

  /** When every batch converts and saves every page, the run yields one
      file per page, in page order. */
  lemma {:induction false} AllPagesSaved(s: nat, total: nat, batchSize: nat, convert: (nat, nat) -> Conversion)
    requires batchSize >= 1
    requires forall a: nat, b: nat :: a <= b ==> convert(a, b) == Ok(AllSaved(b - a + 1))
    ensures PagesFrom(s, total, batchSize, convert) == Ok(PageRange(s, total))
    decreases total + 1 - s
  {
    if s <= total {
      var e := Min(s + batchSize - 1, total);
      var saved := AllSaved(e - s + 1);
      assert convert(s, e) == Ok(saved);
      AllPagesSaved(s + batchSize, total, batchSize, convert);
      SavedPagesAll(s, saved);
      assert SavedPages(s, saved) == PageRange(s, e);
      PageRangeSplit(s, e, total);
    }
  }

  /** The registry entry of a document is `<base>/doc_<id>`. */
  function TempDirOf(base: string, documentId: string): string {
    PathJoin(base, "doc_" + documentId)
  }

  /** `(image_file_paths, total_pages, temp_directory)`. */
  datatype Processed = Processed(files: seq<string>, totalPages: nat, tempDir: string)

  /** What `process_pdf_with_temp_files` returns or raises: the validation
      message, a zero-step `range` error, or the first failed batch. */
  function ProcessPdf(base: string, reading: PdfReading, documentId: string, batchSize: int,
                      convert: (nat, nat) -> Conversion): (r: Result<Processed, string>)
    ensures r.Ok? ==> ValidatePdf(reading).isValid && r.value.totalPages == ValidatePdf(reading).totalPages
    ensures r.Ok? ==> r.value.tempDir == TempDirOf(base, documentId)
    ensures !ValidatePdf(reading).isValid ==> r == Err(ValidatePdf(reading).errorMessage)
  {
    var v := ValidatePdf(reading);
    if !v.isValid then Err(v.errorMessage)
    else
      var dir := TempDirOf(base, documentId);
      if batchSize == 0 then Err(ZeroStepMessage)
      else if batchSize < 0 then Ok(Processed([], v.totalPages, dir))
      else
        match FilesFrom(dir, 1, v.totalPages, batchSize, convert)
        case Err(m) => Err(m)
        case Ok(files) => Ok(Processed(files, v.totalPages, dir))
  }

  const ZeroStepMessage := "range() arg 3 must not be zero"

  /** With a positive batch size and every page converted, a valid PDF of
      `n` pages yields the files of pages `1..n` in order. */
  lemma ProcessPdfAllPages(base: string, reading: PdfReading, documentId: string, batchSize: int,
                           convert: (nat, nat) -> Conversion)
    requires ValidatePdf(reading).isValid && batchSize >= 1
    requires forall a: nat, b: nat :: a <= b ==> convert(a, b) == Ok(AllSaved(b - a + 1))
    ensures ProcessPdf(base, reading, documentId, batchSize, convert).Ok?
    ensures ProcessPdf(base, reading, documentId, batchSize, convert).value.files
      == Paths(TempDirOf(base, documentId), PageRange(1, reading.pageCount))
  {
    var dir := TempDirOf(base, documentId);
    AllPagesSaved(1, reading.pageCount, batchSize, convert);
    FilesArePages(dir, 1, reading.pageCount, batchSize, convert);
  }

  class PdfService {
    const tempBaseDir: string
    var activeTempDirs: map<string, string>

    /** `tempRoot` is the system temporary directory. */
    constructor (tempRoot: string)
      ensures tempBaseDir == PathJoin(tempRoot, "buscador_marca_images")
      ensures activeTempDirs == map[]
    {
      tempBaseDir := PathJoin(tempRoot, "buscador_marca_images");
      activeTempDirs := map[];
    }

    method CreateTempDirectory(documentId: string) returns (dir: string)
      modifies this
      ensures dir == TempDirOf(tempBaseDir, documentId)
      ensures activeTempDirs == old(activeTempDirs)[documentId := dir]
    {
      dir := PathJoin(tempBaseDir, "doc_" + documentId);
      activeTempDirs := activeTempDirs[documentId := dir];
    }

    /** `removeFails` says whether removing the directory from disk raises;
        then the entry stays and the result is false. */
    method CleanupTempDirectory(documentId: string, removeFails: bool) returns (ok: bool)
      modifies this
      ensures ok <==> documentId !in old(activeTempDirs) || !removeFails
      ensures ok ==> activeTempDirs == old(activeTempDirs) - {documentId}
      ensures !ok ==> activeTempDirs == old(activeTempDirs)
    {
      if documentId in activeTempDirs {
        if removeFails {
          return false;
        }
        activeTempDirs := activeTempDirs - {documentId};
        return true;
      }
      return true;
    }

    method ValidatePdfFile(reading: PdfReading) returns (v: Validation)
      ensures v == ValidatePdf(reading)
    {
      match reading {
        case ReadError(m) =>
          v := Validation(false, "Invalid PDF file: " + m, 0);
        case OtherError(m) =>
          v := Validation(false, "Error reading PDF: " + m, 0);
        case Opened(encrypted, n) =>
          if encrypted {
            v := Validation(false, EncryptedMessage, 0);
          } else if n == 0 {
            v := Validation(false, EmptyMessage, 0);
          } else {
            v := Validation(true, "", n);
          }
      }
    }

    /** `_extract_pages_as_grayscale_files_sync` behind its async wrapper:
        the loop over the converted images of one batch. */
    method ExtractPagesAsGrayscaleFiles(dir: string, start: nat, conversion: Conversion)
      returns (r: Result<seq<string>, string>)
      ensures r == Extraction(dir, start, conversion)
    {
      if conversion.Err? {
        return Err(ExtractFailurePrefix + conversion.error);
      }
      var images := conversion.value;
      var files: seq<string> := [];
      for i := 0 to |images|
        invariant files == Paths(dir, SavedPages(start, images[..i]))
      {
        assert images[..i + 1][..i] == images[..i];
        if images[i] {
          files := files + [PathJoin(dir, PageFileName(start + i))];
        }
      }
      assert images[..|images|] == images;
      return Ok(files);
    }

    /** `process_pdf_with_temp_files`. On any error the document's registry
        entry is removed (unless removing its directory fails) before the
        error is re-raised. */
    method ProcessPdfWithTempFiles(reading: PdfReading, documentId: string, batchSize: int,
                                   convert: (nat, nat) -> Conversion, removeFails: bool)
      returns (r: Result<Processed, string>)
      modifies this
      ensures r == ProcessPdf(tempBaseDir, reading, documentId, batchSize, convert)
      ensures r.Ok? ==> activeTempDirs == old(activeTempDirs)[documentId := r.value.tempDir]
      ensures r.Err? && !removeFails ==> activeTempDirs == old(activeTempDirs) - {documentId}
      ensures r.Err? && removeFails && !ValidatePdf(reading).isValid ==> activeTempDirs == old(activeTempDirs)
      ensures r.Err? && removeFails && ValidatePdf(reading).isValid ==>
        activeTempDirs == old(activeTempDirs)[documentId := TempDirOf(tempBaseDir, documentId)]
    {
      var v := ValidatePdfFile(reading);
      if !v.isValid {
        var _ := CleanupTempDirectory(documentId, removeFails);
        return Err(v.errorMessage);
      }
      var dir := CreateTempDirectory(documentId);
      if batchSize == 0 {
        var _ := CleanupTempDirectory(documentId, removeFails);
        return Err(ZeroStepMessage);
      }
      var all: seq<string> := [];
      if batchSize > 0 {
        var files := ExtractBatches(dir, v.totalPages, batchSize, convert);
        if files.Err? {
          var _ := CleanupTempDirectory(documentId, removeFails);
          return Err(files.error);
        }
        all := files.value;
      }
      return Ok(Processed(all, v.totalPages, dir));
    }

    /** The batch loop: pages `1..total` in batches of `batchSize`, each
        converted and saved, the files concatenated in batch order; the
        first batch that fails ends the loop with its error. */
    method ExtractBatches(dir: string, total: nat, batchSize: nat, convert: (nat, nat) -> Conversion)
      returns (r: Result<seq<string>, string>)
      requires batchSize >= 1
      ensures r == FilesFrom(dir, 1, total, batchSize, convert)
    {
      var all: seq<string> := [];
      var batchStart: nat := 1;
      var whole := FilesFrom(dir, 1, total, batchSize, convert);
      if whole.Ok? {
        assert [] + whole.value == whole.value;
      }
      while batchStart <= total
        invariant batchStart >= 1
        invariant FilesFrom(dir, 1, total, batchSize, convert)
          == Prepend(all, FilesFrom(dir, batchStart, total, batchSize, convert))
        decreases total + 1 - batchStart
      {
        var batchEnd := Min(batchStart + batchSize - 1, total);
        var batch := ExtractPagesAsGrayscaleFiles(dir, batchStart, convert(batchStart, batchEnd));
        if batch.Err? {
          return Err(batch.error);
        }
        PrependAssociates(all, batch.value, FilesFrom(dir, batchStart + batchSize, total, batchSize, convert));
        all := all + batch.value;
        batchStart := batchStart + batchSize;
      }
      assert all + [] == all;
      return Ok(all);
    }
  }

  /** The files gathered so far in front of the files still to come. */
  function Prepend(acc: seq<string>, r: Result<seq<string>, string>): (p: Result<seq<string>, string>)
    ensures p.Ok? <==> r.Ok?
    ensures r.Err? ==> p == r
  {
    if r.Err? then r else Ok(acc + r.value)
  }

  lemma PrependAssociates(acc: seq<string>, files: seq<string>, rest: Result<seq<string>, string>)
    ensures Prepend(acc, Prepend(files, rest)) == Prepend(acc + files, rest)
  {
    if rest.Ok? {
      assert acc + (files + rest.value) == (acc + files) + rest.value;
    }
  }
}
