/** Application settings (backend/app/config.py): the values the services
    read, their defaults, the OCR language list and the per-platform caps. */
module Config {
  import opened Strings
  import opened Sorting

  datatype Settings = Settings(
    maxFileSize: int,
    allowedExtensions: seq<string>,
    maxConcurrentPages: int,
    batchSize: int,
    threadPoolSize: int,
    useGpu: bool,
    ocrLanguages: string,
    ocrConfidenceThreshold: real,
    ocrMaxRetries: int,
    ocrRetryDelay: real,
    gpuMemoryFraction: real)

  /** The defaults used when the environment sets nothing. A maximum file size
      of 0 means that there is no limit. */
  const Defaults: Settings := Settings(
    maxFileSize := 0,
    allowedExtensions := [".pdf"],
    maxConcurrentPages := 4,
    batchSize := 4,
    threadPoolSize := 4,
    useGpu := true,
    ocrLanguages := "es,en",
    ocrConfidenceThreshold := 0.3,
    ocrMaxRetries := 3,
    ocrRetryDelay := 1.0,
    gpuMemoryFraction := 0.8)

  /** The stripped, non-empty pieces, in order, repeated codes kept. */
  function NonBlankStripped(pieces: seq<string>): (r: seq<string>)
    ensures forall i :: 0 <= i < |r| ==> r[i] != [] && IsStripped(r[i])
    ensures forall x :: x in r <==> exists p :: p in pieces && Strip(p) == x && x != []
  {
    if pieces == [] then []
    else
      var rest := NonBlankStripped(pieces[1..]);
      var head := Strip(pieces[0]);
      assert forall p :: p in pieces <==> p == pieces[0] || p in pieces[1..];
      if head != [] then [head] + rest else rest
  }

  /** The list is the stripped pieces with only the blank ones removed. */
  lemma {:induction false} NonBlankStrippedIsNonEmpty(pieces: seq<string>)
    ensures NonBlankStripped(pieces) == NonEmpty(StripAll(pieces))
  {
    if pieces != [] {
      NonBlankStrippedIsNonEmpty(pieces[1..]);
      var t := StripAll(pieces);
      assert t[0] == Strip(pieces[0]) && t[1..] == StripAll(pieces[1..]);
      assert NonEmpty(t) == if t[0] == [] then NonEmpty(t[1..]) else [t[0]] + NonEmpty(t[1..]);
    }
  }

  /** The comma-separated OCR language codes as a list. */
  function OcrLanguagesList(s: Settings): seq<string> {
    NonBlankStripped(Split(s.ocrLanguages, ','))
  }

  function StripAll(pieces: seq<string>): (r: seq<string>)
    ensures |r| == |pieces|
    ensures forall i :: 0 <= i < |r| ==> r[i] == Strip(pieces[i])
  {
    seq(|pieces|, i requires 0 <= i < |pieces| => Strip(pieces[i]))
  }

  /** The list keeps the order of the pieces it was cut from, and a code
      listed twice appears twice: nothing is dropped but blank pieces. */
  lemma NonBlankStrippedInOrder(pieces: seq<string>)
    ensures IsSubseq(NonBlankStripped(pieces), StripAll(pieces))
    ensures forall x ::
      multiset(NonBlankStripped(pieces))[x] == if x == [] then 0 else multiset(StripAll(pieces))[x]
  {
    NonBlankStrippedIsNonEmpty(pieces);
    NonEmptyInOrder(StripAll(pieces));
  }

  lemma DefaultLanguages()
    ensures OcrLanguagesList(Defaults) == ["es", "en"]
  {
    assert IndexOf("es,en", ',') == 2;
    assert "es,en"[..2] == "es";
    assert "es,en"[3..] == "en";
    assert IndexOf("en", ',') == 2;
    assert Split("en", ',') == ["en"];
    assert Split("es,en", ',') == ["es"] + Split("en", ',');
    StripStripped("es");
    StripStripped("en");
  }

  /** The values that `optimized_settings` returns. */
  datatype Optimized = Optimized(
    maxConcurrentPages: int,
    batchSize: int,
    threadPoolSize: int,
    gpuMemoryFraction: real,
    useGpu: bool)

  function Min(a: int, b: int): int { if a <= b then a else b }

  /** On Windows the three pool sizes are capped at 4, the GPU memory share
      is fixed at 0.8 and the GPU is used only when one is available; on any
      other platform the settings pass through. */
  function OptimizedSettings(s: Settings, isWindows: bool, gpuAvailable: bool): (o: Optimized)
    ensures isWindows ==>
      && o.maxConcurrentPages <= 4 && o.maxConcurrentPages <= s.maxConcurrentPages
      && (o.maxConcurrentPages == 4 || o.maxConcurrentPages == s.maxConcurrentPages)
      && o.batchSize <= 4 && o.batchSize <= s.batchSize
      && (o.batchSize == 4 || o.batchSize == s.batchSize)
      && o.threadPoolSize <= 4 && o.threadPoolSize <= s.threadPoolSize
      && (o.threadPoolSize == 4 || o.threadPoolSize == s.threadPoolSize)
      && o.gpuMemoryFraction == 0.8
      && (o.useGpu <==> s.useGpu && gpuAvailable)
    ensures !isWindows ==>
      o == Optimized(s.maxConcurrentPages, s.batchSize, s.threadPoolSize, s.gpuMemoryFraction, s.useGpu)
  {
    if isWindows then
      Optimized(
        Min(s.maxConcurrentPages, 4),
        Min(s.batchSize, 4),
        Min(s.threadPoolSize, 4),
        0.8,
        s.useGpu && gpuAvailable)
    else
      Optimized(s.maxConcurrentPages, s.batchSize, s.threadPoolSize, s.gpuMemoryFraction, s.useGpu)
  }
}
