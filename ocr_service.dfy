/** The OCR adapter (backend/app/services/ocr_service.py): a page is cut into
    overlapping 1024x1024 chunks, each chunk is read by the OCR engine with
    retries and exponential back-off, confident non-blank detections are moved
    into page coordinates, and all texts are merged top to bottom into one
    string. The OCR engine is a parameter: `readtext(chunk, attempt)` is what
    the engine returns on that attempt for that chunk, `None` when it raises. */
module Ocr {
  import opened Wrappers
  import opened Strings
  import opened Sorting

  const ChunkSide: nat := 1024
  const ChunkOverlap: nat := 200
  /** The distance between two chunk origins along an axis: the chunk side
      less the overlap. */
  const Step: nat := 824
  /** Chunks narrower or lower than this are dropped. */
  const MinSide: nat := 200
  /** Two detections whose tops differ by more than this are on different lines. */
  const LineThreshold: int := 50

  function Min(a: int, b: int): int { if a <= b then a else b }
  function Abs(a: int): nat { if a < 0 then -a else a }

  /** A chunk of the page: its top-left corner and its size. */
  datatype Chunk = Chunk(x: nat, y: nat, width: nat, height: nat)

  /** The crop with top-left corner (x, y), clamped to the image. */
  function CropAt(x: nat, y: nat, width: nat, height: nat): Chunk
    requires x < width && y < height
  {
    Chunk(x, y, Min(x + ChunkSide, width) - x, Min(y + ChunkSide, height) - y)
  }

  predicate LargeEnough(c: Chunk) { c.width >= MinSide && c.height >= MinSide }

  /** `c` lies inside the image and is as large as the image lets it be. */
  predicate Clamped(c: Chunk, width: nat, height: nat) {
    && c.x < width && c.y < height
    && c.width == Min(ChunkSide, width - c.x)
    && c.height == Min(ChunkSide, height - c.y)
  }

  predicate Covers(c: Chunk, px: nat, py: nat) {
    c.x <= px < c.x + c.width && c.y <= py < c.y + c.height
  }

  /** The kept chunks of the row at height `y`, from origin `x` rightwards. */
  function RowChunks(x: nat, y: nat, width: nat, height: nat): seq<Chunk>
    requires y < height
    decreases width - x
  {
    if x >= width then []
    else
      var c := CropAt(x, y, width, height);
      (if LargeEnough(c) then [c] else []) + RowChunks(x + Step, y, width, height)
  }

  /** The kept chunks of the rows from height `y` downwards. */
  function GridChunks(y: nat, width: nat, height: nat): seq<Chunk>
    decreases height - y
  {
    if y >= height then []
    else RowChunks(0, y, width, height) + GridChunks(y + Step, width, height)
  }

  predicate LeftToRight(s: seq<Chunk>) {
    forall i, j :: 0 <= i < j < |s| ==> s[i].x < s[j].x
  }

  /** A row holds kept, clamped chunks on the grid. */
  lemma {:induction false} RowChunksShape(x: nat, y: nat, width: nat, height: nat)
    requires y < height
    ensures forall c :: c in RowChunks(x, y, width, height) ==>
      c.y == y && x <= c.x && (c.x - x) % Step == 0 && Clamped(c, width, height) && LargeEnough(c)
    decreases width - x
  {
    if x < width {
      var c := CropAt(x, y, width, height);
      var rest := RowChunks(x + Step, y, width, height);
      RowChunksShape(x + Step, y, width, height);
      assert forall d :: d in rest ==> (d.x - x) % Step == 0 by {
        forall d | d in rest ensures (d.x - x) % Step == 0 {
          assert (d.x - x - Step) % Step == 0;
        }
      }
      var r := RowChunks(x, y, width, height);
      if LargeEnough(c) {
        assert r == [c] + rest;
        assert forall d :: d in r ==> d == c || d in rest;
      } else {
        assert r == rest;
      }
    }
  }

  /** A row runs left to right. */
  lemma {:induction false} RowChunksLeftToRight(x: nat, y: nat, width: nat, height: nat)
    requires y < height
    ensures LeftToRight(RowChunks(x, y, width, height))
    decreases width - x
  {
    if x < width {
      var c := CropAt(x, y, width, height);
      var rest := RowChunks(x + Step, y, width, height);
      RowChunksShape(x + Step, y, width, height);
      RowChunksLeftToRight(x + Step, y, width, height);
      var r := RowChunks(x, y, width, height);
      if LargeEnough(c) {
        assert r == [c] + rest;
        forall i, j | 0 <= i < j < |r| ensures r[i].x < r[j].x {
          assert r[j] == rest[j - 1];
          if i > 0 {
            assert r[i] == rest[i - 1];
          } else {
            assert rest[j - 1] in rest;
          }
        }
      } else {
        assert r == rest;
      }
    }
  }

  /** Every chunk of the grid is kept, clamped to the image, and has its
      origin at a multiple of the step on both axes. */
  lemma {:induction false} GridChunksShape(y: nat, width: nat, height: nat)
    ensures forall c :: c in GridChunks(y, width, height) ==> y <= c.y && (c.y - y) % Step == 0
    ensures forall c :: c in GridChunks(y, width, height) ==>
      c.x % Step == 0 && Clamped(c, width, height) && LargeEnough(c)
    decreases height - y
  {
    if y < height {
      var row := RowChunks(0, y, width, height);
      var rest := GridChunks(y + Step, width, height);
      RowChunksShape(0, y, width, height);
      GridChunksShape(y + Step, width, height);
      assert forall d :: d in rest ==> (d.y - y) % Step == 0 by {
        forall d | d in rest ensures (d.y - y) % Step == 0 {
          assert (d.y - y - Step) % Step == 0;
        }
      }
      assert forall d :: d in row ==> (d.y - y) % Step == 0;
      assert forall d :: d in row + rest ==> d in row || d in rest;
    }
  }

  /** The chunks of a `width` x `height` page, in the order they are produced. */
  function Chunks(width: nat, height: nat): seq<Chunk> {
    GridChunks(0, width, height)
  }

  predicate RowMajor(s: seq<Chunk>) {
    forall i, j :: 0 <= i < j < |s| ==> s[i].y < s[j].y || (s[i].y == s[j].y && s[i].x < s[j].x)
  }

  /** Chunks come row by row, top to bottom, and left to right in a row. */
  lemma {:induction false} GridRowMajor(y: nat, width: nat, height: nat)
    ensures RowMajor(GridChunks(y, width, height))
    decreases height - y
  {
    if y < height {
      var row := RowChunks(0, y, width, height);
      var rest := GridChunks(y + Step, width, height);
      GridRowMajor(y + Step, width, height);
      RowChunksShape(0, y, width, height);
      RowChunksLeftToRight(0, y, width, height);
      GridChunksShape(y + Step, width, height);
      var s := row + rest;
      forall i, j | 0 <= i < j < |s|
        ensures s[i].y < s[j].y || (s[i].y == s[j].y && s[i].x < s[j].x)
      {
        if j < |row| {
        } else if i < |row| {
          assert s[i] == row[i] && s[j] == rest[j - |row|];
          assert row[i] in row && rest[j - |row|] in rest;
        } else {
          assert s[i] == rest[i - |row|] && s[j] == rest[j - |row|];
        }
      }
    }
  }

  lemma {:induction false} InRow(x: nat, y: nat, width: nat, height: nat, k: nat)
    requires y < height && x + k * Step < width
    requires LargeEnough(CropAt(x + k * Step, y, width, height))
    ensures CropAt(x + k * Step, y, width, height) in RowChunks(x, y, width, height)
    decreases k
  {
    if k > 0 {
      InRow(x + Step, y, width, height, k - 1);
      assert (x + Step) + (k - 1) * Step == x + k * Step;
    }
  }

  lemma {:induction false} InGrid(y: nat, width: nat, height: nat, k: nat, c: Chunk)
    requires y + k * Step < height
    requires c in RowChunks(0, y + k * Step, width, height)
    ensures c in GridChunks(y, width, height)
    decreases k
  {
    if k > 0 {
      InGrid(y + Step, width, height, k - 1, c);
      assert (y + Step) + (k - 1) * Step == y + k * Step;
    }
  }

  /** The grid origin whose kept chunk covers position `p` on an axis of
      length `len`: the origin just below `p`, or the one before it when
      the edge chunk there is too small to be kept. */
  lemma CoveringOrigin(p: nat, len: nat) returns (k: nat)
    requires p < len && len >= MinSide
    ensures k * Step < len && len - k * Step >= MinSide
    ensures k * Step <= p < k * Step + Min(ChunkSide, len - k * Step)
  {
    k := p / Step;
    if len - k * Step < MinSide {
      k := k - 1;
    }
  }

  /** When both sides are at least 200 pixels, dropping small edge chunks
      loses no pixel: every pixel lies in some kept chunk. */
  lemma ChunksCoverImage(width: nat, height: nat, px: nat, py: nat)
    requires MinSide <= width && MinSide <= height && px < width && py < height
    ensures exists c :: c in Chunks(width, height) && Covers(c, px, py)
  {
    var kx := CoveringOrigin(px, width);
    var ky := CoveringOrigin(py, height);
    var c := CropAt(kx * Step, ky * Step, width, height);
    InRow(0, ky * Step, width, height, kx);
    InGrid(0, width, height, ky, c);
    assert Covers(c, px, py);
  }

  datatype Point = Point(x: int, y: int)

  /** One OCR engine result in chunk coordinates. */
  datatype RawDetection = RawDetection(bbox: seq<Point>, text: string, confidence: real)

  /** A kept detection in page coordinates, tagged with its chunk origin. */
  datatype TextDetection = TextDetection(text: string, bbox: seq<Point>, confidence: real, chunkX: int, chunkY: int)

  /** Moves a box from chunk space into page space. */
  function AdjustCoordinates(bbox: seq<Point>, chunkX: int, chunkY: int): (r: seq<Point>)
    ensures |r| == |bbox|
    ensures forall i :: 0 <= i < |r| ==> r[i].x == bbox[i].x + chunkX && r[i].y == bbox[i].y + chunkY
  {
    if bbox == [] then []
    else [Point(bbox[0].x + chunkX, bbox[0].y + chunkY)] + AdjustCoordinates(bbox[1..], chunkX, chunkY)
  }

  /** Shifting back by the opposite offset restores the chunk-space box. */
  lemma AdjustCoordinatesInverse(bbox: seq<Point>, chunkX: int, chunkY: int)
    ensures AdjustCoordinates(AdjustCoordinates(bbox, chunkX, chunkY), -chunkX, -chunkY) == bbox
  {
    var r := AdjustCoordinates(AdjustCoordinates(bbox, chunkX, chunkY), -chunkX, -chunkY);
    assert forall i :: 0 <= i < |r| ==> r[i] == bbox[i];
  }

  /** A result is kept when it is confident enough and not blank. */
  predicate Keeps(d: RawDetection, threshold: real) {
    d.confidence >= threshold && Strip(d.text) != []
  }

  function Detect(d: RawDetection, chunkX: int, chunkY: int): TextDetection {
    TextDetection(Strip(d.text), AdjustCoordinates(d.bbox, chunkX, chunkY), d.confidence, chunkX, chunkY)
  }

  /** The detections kept from one engine reply, in reply order. */
  function FilterDetections(raws: seq<RawDetection>, chunkX: int, chunkY: int, threshold: real): (r: seq<TextDetection>)
    ensures |r| <= |raws|
    ensures forall t :: t in r ==> t.text != [] && IsStripped(t.text) && t.confidence >= threshold
  {
    if raws == [] then []
    else
      var init := raws[..|raws| - 1];
      var last := raws[|raws| - 1];
      FilterDetections(init, chunkX, chunkY, threshold)
        + if Keeps(last, threshold) then [Detect(last, chunkX, chunkY)] else []
  }

  /** Exactly the confident, non-blank replies are kept, stripped and moved
      into page space. */
  lemma {:induction false} FilterDetectionsKeeps(raws: seq<RawDetection>, chunkX: int, chunkY: int, threshold: real)
    ensures forall t :: t in FilterDetections(raws, chunkX, chunkY, threshold) <==>
      exists d :: d in raws && Keeps(d, threshold) && t == Detect(d, chunkX, chunkY)
  {
    if raws != [] {
      var init := raws[..|raws| - 1];
      var last := raws[|raws| - 1];
      FilterDetectionsKeeps(init, chunkX, chunkY, threshold);
      assert raws == init + [last];
      assert forall d :: d in raws <==> d in init || d == last;
    }
  }

  /** The first attempt in [k, n) on which the engine answers. */
  function FirstSuccess(readtext: (Chunk, nat) -> Option<seq<RawDetection>>, c: Chunk, k: nat, n: int): (r: Option<nat>)
    ensures r.Some? ==> k <= r.value < n && readtext(c, r.value).Some?
    ensures r.Some? ==> forall j :: k <= j < r.value ==> readtext(c, j).None?
    ensures r.None? ==> forall j :: k <= j < n ==> readtext(c, j).None?
    decreases n - k
  {
    if k >= n then None
    else if readtext(c, k).Some? then Some(k)
    else FirstSuccess(readtext, c, k + 1, n)
  }

  /** A delay after `n` doublings. */
  function Doubled(delay: real, n: nat): real {
    if n == 0 then delay else Doubled(delay, n - 1) * 2.0
  }

  /** Doubling `a` times and then `b` times is doubling `a + b` times. */
  lemma {:induction false} DoubledTwice(delay: real, a: nat, b: nat)
    ensures Doubled(Doubled(delay, a), b) == Doubled(delay, a + b)
  {
    if b > 0 {
      DoubledTwice(delay, a, b - 1);
      assert a + b - 1 == a + (b - 1);
    }
  }

  lemma DelayStep(delay: real, before: real, after: real, a: nat, b: nat)
    requires before == Doubled(delay, a) && after == Doubled(before, b)
    ensures after == Doubled(delay, a + b)
  {
    DoubledTwice(delay, a, b);
  }

  /** What one chunk's OCR call returns: the filtered reply of the first
      attempt that succeeds, or nothing when every attempt fails. */
  function ChunkResult(readtext: (Chunk, nat) -> Option<seq<RawDetection>>, c: Chunk, maxRetries: int, threshold: real): seq<TextDetection> {
    match FirstSuccess(readtext, c, 0, maxRetries)
    case Some(k) => FilterDetections(readtext(c, k).value, c.x, c.y, threshold)
    case None => []
  }

  /** How often one chunk's OCR call doubles the back-off delay: once per
      failed attempt that is followed by another attempt. */
  function Doublings(readtext: (Chunk, nat) -> Option<seq<RawDetection>>, c: Chunk, maxRetries: int): nat {
    match FirstSuccess(readtext, c, 0, maxRetries)
    case Some(k) => k
    case None => if maxRetries > 0 then maxRetries - 1 else 0
  }

  /** The call ends with the first attempt that answers, after doubling the
      delay once per earlier attempt. */
  lemma AnsweredAt(readtext: (Chunk, nat) -> Option<seq<RawDetection>>, c: Chunk, k: nat, maxRetries: int, threshold: real)
    requires k < maxRetries && readtext(c, k).Some?
    requires forall j :: 0 <= j < k ==> readtext(c, j).None?
    ensures ChunkResult(readtext, c, maxRetries, threshold) == FilterDetections(readtext(c, k).value, c.x, c.y, threshold)
    ensures Doublings(readtext, c, maxRetries) == k
  {
    var first := FirstSuccess(readtext, c, 0, maxRetries);
    assert first == Some(k);
  }

  /** A call whose every attempt fails returns nothing, having doubled the
      delay before each retry. */
  lemma NeverAnswered(readtext: (Chunk, nat) -> Option<seq<RawDetection>>, c: Chunk, maxRetries: int, threshold: real)
    requires forall j :: 0 <= j < maxRetries ==> readtext(c, j).None?
    ensures ChunkResult(readtext, c, maxRetries, threshold) == []
    ensures Doublings(readtext, c, maxRetries) == if maxRetries > 0 then maxRetries - 1 else 0
  {
    assert FirstSuccess(readtext, c, 0, maxRetries).None?;
  }

  lemma FilterStep(raws: seq<RawDetection>, i: int, chunkX: int, chunkY: int, threshold: real)
    requires 0 <= i < |raws|
    ensures FilterDetections(raws[..i + 1], chunkX, chunkY, threshold)
      == FilterDetections(raws[..i], chunkX, chunkY, threshold)
         + if Keeps(raws[i], threshold) then [Detect(raws[i], chunkX, chunkY)] else []
  {
    assert raws[..i + 1][..i] == raws[..i];
  }

  /** Every chunk's detections, in chunk order. */
  function AllDetections(readtext: (Chunk, nat) -> Option<seq<RawDetection>>, chunks: seq<Chunk>, maxRetries: int, threshold: real): seq<TextDetection> {
    if chunks == [] then []
    else
      AllDetections(readtext, chunks[..|chunks| - 1], maxRetries, threshold)
        + ChunkResult(readtext, chunks[|chunks| - 1], maxRetries, threshold)
  }

  function TotalDoublings(readtext: (Chunk, nat) -> Option<seq<RawDetection>>, chunks: seq<Chunk>, maxRetries: int): nat {
    if chunks == [] then 0
    else TotalDoublings(readtext, chunks[..|chunks| - 1], maxRetries) + Doublings(readtext, chunks[|chunks| - 1], maxRetries)
  }

  /** The results of the concurrent chunk calls, `None` for a call that raised,
      concatenated with the failed calls skipped. */
  function Collected(results: seq<Option<seq<TextDetection>>>): seq<TextDetection> {
    if results == [] then []
    else
      var tail := match results[|results| - 1] case Some(ds) => ds case None => [];
      Collected(results[..|results| - 1]) + tail
  }

  lemma CollectedSnoc(results: seq<Option<seq<TextDetection>>>, ds: seq<TextDetection>)
    ensures Collected(results + [Some(ds)]) == Collected(results) + ds
  {
    assert (results + [Some(ds)])[..|results|] == results;
  }

  lemma GatherStep(readtext: (Chunk, nat) -> Option<seq<RawDetection>>, chunks: seq<Chunk>, i: int, maxRetries: int, threshold: real)
    requires 0 <= i < |chunks|
    ensures AllDetections(readtext, chunks[..i + 1], maxRetries, threshold)
      == AllDetections(readtext, chunks[..i], maxRetries, threshold) + ChunkResult(readtext, chunks[i], maxRetries, threshold)
    ensures TotalDoublings(readtext, chunks[..i + 1], maxRetries)
      == TotalDoublings(readtext, chunks[..i], maxRetries) + Doublings(readtext, chunks[i], maxRetries)
  {
    assert chunks[..i + 1][..i] == chunks[..i];
  }

  /** One more chunk read: its detections join the collected ones and its
      failed attempts join the doublings of the delay. */
  lemma GatherLoopStep(readtext: (Chunk, nat) -> Option<seq<RawDetection>>, chunks: seq<Chunk>, i: int,
                       maxRetries: int, threshold: real, results: seq<Option<seq<TextDetection>>>,
                       ds: seq<TextDetection>, delay: real, before: real, after: real)
    requires 0 <= i < |chunks|
    requires Collected(results) == AllDetections(readtext, chunks[..i], maxRetries, threshold)
    requires ds == ChunkResult(readtext, chunks[i], maxRetries, threshold)
    requires before == Doubled(delay, TotalDoublings(readtext, chunks[..i], maxRetries))
    requires after == Doubled(before, Doublings(readtext, chunks[i], maxRetries))
    ensures Collected(results + [Some(ds)]) == AllDetections(readtext, chunks[..i + 1], maxRetries, threshold)
    ensures after == Doubled(delay, TotalDoublings(readtext, chunks[..i + 1], maxRetries))
  {
    GatherStep(readtext, chunks, i, maxRetries, threshold);
    CollectedSnoc(results, ds);
    DelayStep(delay, before, after, TotalDoublings(readtext, chunks[..i], maxRetries), Doublings(readtext, chunks[i], maxRetries));
  }

  /** A detection that raised contributes nothing; the others keep their order. */
  lemma {:induction false} CollectedSkipsFailures(a: seq<Option<seq<TextDetection>>>, b: seq<Option<seq<TextDetection>>>)
    ensures Collected(a + [None] + b) == Collected(a + b)
    decreases |b|
  {
    if b == [] {
      assert a + [None] + b == a + [None];
      assert (a + [None])[..|a|] == a;
      assert a + b == a;
    } else {
      var b' := b[..|b| - 1];
      CollectedSkipsFailures(a, b');
      assert (a + [None] + b)[..|a + [None] + b| - 1] == a + [None] + b';
      assert (a + b)[..|a + b| - 1] == a + b';
    }
  }

  /** The vertical position a detection is sorted by: the top of its first point. */
  function TopY(d: TextDetection): int {
    if d.bbox == [] then 0 else d.bbox[0].y
  }

  function LastY(s: seq<TextDetection>): int {
    if s == [] then -1 else TopY(s[|s| - 1])
  }

  /** One pass of the merging loop: a line break when the vertical position
      jumps by more than the threshold (-1 stands for "no previous text"),
      then a space unless the text so far is empty or ends a line. */
  function AppendDetection(acc: string, prevY: int, d: TextDetection): string {
    var broken := if prevY != -1 && Abs(TopY(d) - prevY) > LineThreshold then acc + "\n" else acc;
    var spaced := if broken != [] && broken[|broken| - 1] != '\n' then broken + " " else broken;
    spaced + d.text
  }

  /** The merging loop run over `s`, before the final strip. */
  function Assemble(s: seq<TextDetection>): string {
    if s == [] then ""
    else AppendDetection(Assemble(s[..|s| - 1]), LastY(s[..|s| - 1]), s[|s| - 1])
  }

  lemma AssembleStep(s: seq<TextDetection>, i: int)
    requires 0 <= i < |s|
    ensures Assemble(s[..i + 1]) == AppendDetection(Assemble(s[..i]), LastY(s[..i]), s[i])
    ensures LastY(s[..i + 1]) == TopY(s[i])
  {
    assert s[..i + 1][..i] == s[..i];
  }

  /** The separator placed between two consecutive texts. */
  function Separator(prevY: int, y: int): string {
    if prevY != -1 && Abs(y - prevY) > LineThreshold then "\n" else " "
  }

  /** The texts in order, each pair separated by a line break or a space. */
  function Joined(s: seq<TextDetection>): string {
    if s == [] then ""
    else if |s| == 1 then s[0].text
    else Joined(s[..|s| - 1]) + Separator(LastY(s[..|s| - 1]), TopY(s[|s| - 1])) + s[|s| - 1].text
  }

  predicate CleanTexts(s: seq<TextDetection>) {
    forall i :: 0 <= i < |s| ==> s[i].text != [] && IsStripped(s[i].text)
  }

  lemma CleanPrefix(s: seq<TextDetection>, n: nat)
    requires CleanTexts(s) && n <= |s|
    ensures CleanTexts(s[..n])
  {
    forall i | 0 <= i < n ensures s[..n][i].text != [] && IsStripped(s[..n][i].text) {
      assert s[..n][i] == s[i];
    }
  }

  /** The joined texts start with the first text's first character and end
      with the last text's last character. */
  lemma {:induction false} JoinedEnds(s: seq<TextDetection>)
    requires CleanTexts(s) && s != []
    ensures Joined(s) != []
    ensures Joined(s)[0] == s[0].text[0]
    ensures Joined(s)[|Joined(s)| - 1] == s[|s| - 1].text[|s[|s| - 1].text| - 1]
  {
    if |s| > 1 {
      var init := s[..|s| - 1];
      CleanPrefix(s, |s| - 1);
      JoinedEnds(init);
      var j := Joined(init);
      var last := s[|s| - 1];
      assert Joined(s) == j + Separator(LastY(init), TopY(last)) + last.text;
      assert init[0] == s[0];
    }
  }

  /** For non-blank stripped texts (all that the OCR filter lets through),
      the merging loop separates consecutive texts by exactly one line break
      or one space. */
  lemma {:induction false} AssembleJoined(s: seq<TextDetection>)
    requires CleanTexts(s)
    ensures Assemble(s) == Joined(s)
  {
    if s != [] {
      var init := s[..|s| - 1];
      var last := s[|s| - 1];
      CleanPrefix(s, |s| - 1);
      AssembleJoined(init);
      if init != [] {
        JoinedEnds(init);
        var j := Joined(init);
        assert j[|j| - 1] != '\n' by {
          assert !IsSpace(init[|init| - 1].text[|init[|init| - 1].text| - 1]);
        }
        AppendSeparated(j, LastY(init), last);
      }
    }
  }

  /** After text that does not end a line, one pass of the merging loop adds
      exactly the separator and the new text. */
  lemma AppendSeparated(acc: string, prevY: int, d: TextDetection)
    requires acc != [] && acc[|acc| - 1] != '\n'
    ensures AppendDetection(acc, prevY, d) == acc + Separator(prevY, TopY(d)) + d.text
  {
    var broken := if prevY != -1 && Abs(TopY(d) - prevY) > LineThreshold then acc + "\n" else acc;
    assert broken != [];
    assert broken[|broken| - 1] == '\n' <==> broken != acc;
  }

  /** The joined texts of clean detections are already stripped. */
  lemma JoinedStripped(s: seq<TextDetection>)
    requires CleanTexts(s)
    ensures IsStripped(Joined(s))
  {
    if s != [] {
      JoinedEnds(s);
      assert !IsSpace(s[0].text[0]);
      assert !IsSpace(s[|s| - 1].text[|s[|s| - 1].text| - 1]);
    }
  }

  /** Merging sorted detections and stripping the result gives the joined texts. */
  lemma MergedText(s: seq<TextDetection>)
    requires CleanTexts(s)
    ensures Strip(Assemble(s)) == Joined(s)
  {
    AssembleJoined(s);
    JoinedStripped(s);
    StripStripped(Joined(s));
  }

  /** Every detection has a point to be sorted by. */
  predicate AllBoxed(detections: seq<TextDetection>) {
    forall i :: 0 <= i < |detections| ==> detections[i].bbox != []
  }

  lemma SortedBoxes(detections: seq<TextDetection>)
    requires AllBoxed(detections)
    ensures AllBoxed(SortBy(detections, TopY))
  {
    SortByMembers(detections, TopY);
    var sorted := SortBy(detections, TopY);
    forall k | 0 <= k < |sorted| ensures sorted[k].bbox != [] {
      assert sorted[k] in sorted;
    }
  }

  /** The OCR service: its retry policy and the back-off delay, which every
      failed attempt that is retried doubles and which is never reset. */
  class OcrService {
    const maxRetries: int
    const threshold: real
    var retryDelay: real

    constructor(maxRetries: int, threshold: real, retryDelay: real)
      ensures this.maxRetries == maxRetries && this.threshold == threshold && this.retryDelay == retryDelay
    {
      this.maxRetries := maxRetries;
      this.threshold := threshold;
      this.retryDelay := retryDelay;
    }

    /** Cuts a `width` x `height` page into its kept chunks, row by row. */
    method SplitImageIntoChunks(width: nat, height: nat) returns (chunks: seq<Chunk>)
      ensures chunks == Chunks(width, height)
    {
      chunks := [];
      var y: nat := 0;
      while y < height
        invariant chunks + GridChunks(y, width, height) == Chunks(width, height)
        decreases height - y
      {
        var row := SplitRow(y, width, height);
        assert GridChunks(y, width, height) == row + GridChunks(y + Step, width, height);
        chunks := chunks + row;
        y := y + Step;
      }
    }

    /** The inner loop of the split: the kept chunks of the row at height `y`. */
    method SplitRow(y: nat, width: nat, height: nat) returns (row: seq<Chunk>)
      requires y < height
      ensures row == RowChunks(0, y, width, height)
    {
      row := [];
      var x: nat := 0;
      while x < width
        invariant row + RowChunks(x, y, width, height) == RowChunks(0, y, width, height)
        decreases width - x
      {
        var c := CropAt(x, y, width, height);
        var kept := if LargeEnough(c) then [c] else [];
        assert RowChunks(x, y, width, height) == kept + RowChunks(x + Step, y, width, height);
        if c.width >= MinSide && c.height >= MinSide {
          row := row + [c];
        }
        x := x + Step;
      }
    }

    /** Reads one chunk, retrying failed attempts and doubling the delay
        after each failed attempt that is not the last. */
    method ExtractTextFromChunk(chunk: Chunk, readtext: (Chunk, nat) -> Option<seq<RawDetection>>)
      returns (detections: seq<TextDetection>)
      modifies this
      ensures detections == ChunkResult(readtext, chunk, maxRetries, threshold)
      ensures retryDelay == Doubled(old(retryDelay), Doublings(readtext, chunk, maxRetries))
    {
      var attempt: nat := 0;
      while attempt < maxRetries
        invariant attempt == 0 || attempt < maxRetries
        invariant forall j :: 0 <= j < attempt ==> readtext(chunk, j).None?
        invariant retryDelay == Doubled(old(retryDelay), attempt)
        decreases maxRetries - attempt
      {
        var reply := readtext(chunk, attempt);
        if reply.Some? {
          AnsweredAt(readtext, chunk, attempt, maxRetries, threshold);
          detections := FilterReply(reply.value, chunk);
          return;
        }
        if attempt < maxRetries - 1 {
          retryDelay := retryDelay * 2.0;
        } else {
          NeverAnswered(readtext, chunk, maxRetries, threshold);
          return [];
        }
        attempt := attempt + 1;
      }
      NeverAnswered(readtext, chunk, maxRetries, threshold);
      return [];
    }

    /** The filtering loop over one engine reply. */
    method FilterReply(results: seq<RawDetection>, chunk: Chunk) returns (detections: seq<TextDetection>)
      ensures detections == FilterDetections(results, chunk.x, chunk.y, threshold)
    {
      detections := [];
      for i := 0 to |results|
        invariant detections == FilterDetections(results[..i], chunk.x, chunk.y, threshold)
      {
        FilterStep(results, i, chunk.x, chunk.y, threshold);
        var d := results[i];
        if d.confidence >= threshold {
          var bbox := AdjustCoordinates(d.bbox, chunk.x, chunk.y);
          var cleaned := Strip(d.text);
          if cleaned != [] {
            detections := detections + [TextDetection(cleaned, bbox, d.confidence, chunk.x, chunk.y)];
          }
        }
      }
      assert results[..|results|] == results;
    }

    /** The detections of every chunk, in chunk order, skipping the calls
        that raised. */
    method CollectChunkResults(results: seq<Option<seq<TextDetection>>>) returns (all: seq<TextDetection>)
      ensures all == Collected(results)
    {
      all := [];
      for i := 0 to |results|
        invariant all == Collected(results[..i])
      {
        match results[i]
        case Some(ds) => all := all + ds;
        case None =>
        assert results[..i + 1][..i] == results[..i];
      }
      assert results[..|results|] == results;
    }

    /** Merges detections into one text, top to bottom. `None` stands for the
        error raised when a detection has no points to sort by. */
    method CombineTextDetections(detections: seq<TextDetection>) returns (r: Option<string>)
      ensures detections == [] ==> r == Some("")
      ensures detections != [] && !AllBoxed(detections) ==> r == None
      ensures AllBoxed(detections) ==> r == Some(Strip(Assemble(SortBy(detections, TopY))))
    {
      if detections == [] {
        return Some("");
      }
      if !AllBoxed(detections) {
        return None;
      }
      var sorted := SortBy(detections, TopY);
      SortedBoxes(detections);
      var combined := "";
      var currentY := -1;
      for i := 0 to |sorted|
        invariant combined == Assemble(sorted[..i])
        invariant currentY == LastY(sorted[..i])
      {
        var d := sorted[i];
        AssembleStep(sorted, i);
        combined := AppendText(combined, currentY, d);
        currentY := d.bbox[0].y;
      }
      assert sorted[..|sorted|] == sorted;
      return Some(Strip(combined));
    }

    /** One pass of the merging loop. */
    method AppendText(combined: string, currentY: int, d: TextDetection) returns (next: string)
      requires d.bbox != []
      ensures next == AppendDetection(combined, currentY, d)
    {
      var y := d.bbox[0].y;
      next := combined;
      if currentY != -1 && Abs(y - currentY) > LineThreshold {
        next := next + "\n";
      }
      if next != [] && next[|next| - 1] != '\n' {
        next := next + " ";
      }
      next := next + d.text;
    }

    /** Runs the OCR call of every chunk (concurrently in the service, one
        after the other here) and gathers their results in chunk order. */
    method GatherChunkResults(chunks: seq<Chunk>, readtext: (Chunk, nat) -> Option<seq<RawDetection>>)
      returns (results: seq<Option<seq<TextDetection>>>)
      modifies this
      ensures |results| == |chunks|
      ensures Collected(results) == AllDetections(readtext, chunks, maxRetries, threshold)
      ensures retryDelay == Doubled(old(retryDelay), TotalDoublings(readtext, chunks, maxRetries))
    {
      results := [];
      for i := 0 to |chunks|
        invariant |results| == i
        invariant Collected(results) == AllDetections(readtext, chunks[..i], maxRetries, threshold)
        invariant retryDelay == Doubled(old(retryDelay), TotalDoublings(readtext, chunks[..i], maxRetries))
      {
        ghost var before := retryDelay;
        var ds := ExtractTextFromChunk(chunks[i], readtext);
        GatherLoopStep(readtext, chunks, i, maxRetries, threshold, results, ds, old(retryDelay), before, retryDelay);
        results := results + [Some(ds)];
      }
      assert chunks[..|chunks|] == chunks;
    }

    /** Reads a whole page: chunks it, reads every chunk, and merges the
        detections. A page without chunks, or one whose merge fails, gives
        an empty text and no detections. */
    method ExtractTextFromImage(width: nat, height: nat, readtext: (Chunk, nat) -> Option<seq<RawDetection>>)
      returns (fullText: string, detections: seq<TextDetection>)
      modifies this
      ensures var all := AllDetections(readtext, Chunks(width, height), maxRetries, threshold);
        if Chunks(width, height) == [] then fullText == [] && detections == []
        else match CombinedOf(all)
          case None => fullText == [] && detections == []
          case Some(t) => fullText == t && detections == all
      ensures retryDelay == Doubled(old(retryDelay), TotalDoublings(readtext, Chunks(width, height), maxRetries))
    {
      var chunks := SplitImageIntoChunks(width, height);
      if chunks == [] {
        return [], [];
      }
      var results := GatherChunkResults(chunks, readtext);
      var all := CollectChunkResults(results);
      var text := CombineTextDetections(all);
      if text.None? {
        return [], [];
      }
      fullText := text.value;
      detections := all;
    }
  }

  /** What merging the detections gives, `None` when one of them has no points. */
  function CombinedOf(detections: seq<TextDetection>): Option<string> {
    if detections == [] then Some("")
    else if !AllBoxed(detections) then None
    else Some(Strip(Assemble(SortBy(detections, TopY))))
  }

  /** A chunk is never read when no attempt is allowed. */
  lemma NoAttemptsNoDetections(readtext: (Chunk, nat) -> Option<seq<RawDetection>>, c: Chunk, maxRetries: int, threshold: real)
    requires maxRetries <= 0
    ensures ChunkResult(readtext, c, maxRetries, threshold) == []
    ensures Doublings(readtext, c, maxRetries) == 0
  {
  }

  /** Every detection of a page has a non-blank, stripped text. */
  lemma {:induction false} AllDetectionsClean(readtext: (Chunk, nat) -> Option<seq<RawDetection>>, chunks: seq<Chunk>, maxRetries: int, threshold: real)
    ensures forall t :: t in AllDetections(readtext, chunks, maxRetries, threshold) ==> t.text != [] && IsStripped(t.text)
  {
    if chunks != [] {
      AllDetectionsClean(readtext, chunks[..|chunks| - 1], maxRetries, threshold);
    }
  }

  /** The merged text of clean detections: sorted top to bottom (stably),
      consecutive texts separated by one line break or one space. */
  lemma CombinedIsJoined(detections: seq<TextDetection>)
    requires detections != [] && AllBoxed(detections)
    requires forall t :: t in detections ==> t.text != [] && IsStripped(t.text)
    ensures CombinedOf(detections) == Some(Joined(SortBy(detections, TopY)))
    ensures SortedBy(SortBy(detections, TopY), TopY)
  {
    var sorted := SortBy(detections, TopY);
    SortByMembers(detections, TopY);
    SortBySorted(detections, TopY);
    forall i | 0 <= i < |sorted| ensures sorted[i].text != [] && IsStripped(sorted[i].text) {
      assert sorted[i] in sorted;
    }
    MergedText(sorted);
  }
}
