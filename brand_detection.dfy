/** Post-processing of the Gemini reply
    (backend/app/services/brand_detection_service.py): the JSON object is cut
    out of the reply text, decoded, checked for its two required keys, and
    its brand list is cleaned and stripped of the company's own names. The
    model call and `json.loads` are parameters: `reply` is the text the model
    returned (`None` when the call raised) and `parse` is the JSON decoder
    (`None` when it raises a decode error). */
module Brands {
  import opened Wrappers
  import opened Strings
  import opened Sorting
  import opened Models

  /** Why a page's detection raised. */
  datatype DetectionError =
    | CallFailed
    | JsonDecodeError
    | NotAnObject
    | MissingBrandsDetected
    | MissingPageNumber
    | BrandNotAString

  const DecodePrefix := "Failed to parse AI response as JSON: "
  const FailedPrefix := "Brand detection failed: "
  const FormatPrefix := "Invalid response format: "
  const NotAnObjectText := FailedPrefix + FormatPrefix + "expected dictionary"
  const MissingBrandsText := FailedPrefix + FormatPrefix + "missing 'brands_detected' field"
  const MissingPageText := FailedPrefix + FormatPrefix + "missing 'page_number' field"

  /** The text of the exception a failed detection raises. A decode error is
      re-raised under its own prefix, every other error under the general
      one; the three format checks raise messages of their own, while the
      call's error, the decoder's and the missing `strip` of a non-string
      entry contribute a text that is not modelled and stops at the prefix. */
  function ErrorText(e: DetectionError): string {
    match e
    case JsonDecodeError => DecodePrefix
    case NotAnObject => NotAnObjectText
    case MissingBrandsDetected => MissingBrandsText
    case MissingPageNumber => MissingPageText
    case CallFailed => FailedPrefix
    case BrandNotAString => FailedPrefix
  }

  /** The message of each detection error, and which prefix tells a decode
      error from the others. */
  lemma ErrorTextMessages(e: DetectionError)
    ensures e == JsonDecodeError <==> StartsWith(ErrorText(e), DecodePrefix)
    ensures e != JsonDecodeError <==> StartsWith(ErrorText(e), FailedPrefix)
    ensures e == NotAnObject ==> ErrorText(e) == FailedPrefix + FormatPrefix + "expected dictionary"
    ensures e == MissingBrandsDetected ==> ErrorText(e) == FailedPrefix + FormatPrefix + "missing 'brands_detected' field"
    ensures e == MissingPageNumber ==> ErrorText(e) == FailedPrefix + FormatPrefix + "missing 'page_number' field"
    ensures e == JsonDecodeError ==> ErrorText(e) == DecodePrefix
    ensures e == CallFailed || e == BrandNotAString ==> ErrorText(e) == FailedPrefix
  {
    assert DecodePrefix[0] != FailedPrefix[0];
  }

  /** There is an opening brace somewhere before a closing brace. */
  predicate HasBracedSpan(reply: string) {
    exists i, j :: 0 <= i < j < |reply| && reply[i] == '{' && reply[j] == '}'
  }

  /** The text handed to the decoder: what the greedy, dot-all pattern
      `\{.*\}` finds, which runs from the first `{` to the last `}` after it,
      or the whole reply when the pattern finds nothing. */
  function JsonCandidate(reply: string): (r: string)
    ensures HasBracedSpan(reply) ==>
      exists i, j :: 0 <= i < j < |reply| && r == reply[i..j + 1]
        && reply[i] == '{' && reply[j] == '}'
        && (forall k :: 0 <= k < i ==> reply[k] != '{')
        && (forall k :: j < k < |reply| ==> reply[k] != '}')
    ensures !HasBracedSpan(reply) ==> r == reply
  {
    var i := IndexOf(reply, '{');
    var j := LastIndexOf(reply, '}');
    if i < j then
      assert reply[i] == '{' && reply[j] == '}';
      reply[i..j + 1]
    else
      reply
  }

  /** The `brands_detected` value as a list, once the reply has been checked
      to be an object with both required keys; a single value becomes a
      one-element list, a falsy one an empty list. */
  function BrandEntries(result: Json): (r: Result<seq<Json>, DetectionError>)
    ensures !result.JObject? ==> r == Err(NotAnObject)
    ensures result.JObject? && "brands_detected" !in result.fields ==> r == Err(MissingBrandsDetected)
    ensures result.JObject? && "brands_detected" in result.fields && "page_number" !in result.fields ==>
      r == Err(MissingPageNumber)
    ensures r.Ok? ==> result.JObject? && "brands_detected" in result.fields && "page_number" in result.fields
    ensures r.Ok? && result.fields["brands_detected"].JArray? ==> r.value == result.fields["brands_detected"].items
    ensures r.Ok? && !result.fields["brands_detected"].JArray? ==>
      r.value == if Truthy(result.fields["brands_detected"]) then [result.fields["brands_detected"]] else []
  {
    if !result.JObject? then Err(NotAnObject)
    else if "brands_detected" !in result.fields then Err(MissingBrandsDetected)
    else if "page_number" !in result.fields then Err(MissingPageNumber)
    else
      var v := result.fields["brands_detected"];
      if v.JArray? then Ok(v.items)
      else if Truthy(v) then Ok([v])
      else Ok([])
  }

  /** The stripped text of an entry; other values have none. */
  function EntryText(e: Json): string {
    if e.JString? then Strip(e.s) else []
  }

  function EntryTexts(entries: seq<Json>): (r: seq<string>)
    ensures |r| == |entries|
    ensures forall k :: 0 <= k < |r| ==> r[k] == EntryText(entries[k])
  {
    seq(|entries|, k requires 0 <= k < |entries| => EntryText(entries[k]))
  }

  /** `[brand.strip() for brand in entries if brand and brand.strip()]`:
      falsy entries are skipped, and a truthy entry that is not a string
      raises because it has no `strip`. Otherwise the result is every
      non-blank stripped text, in order and with its repeats. */
  function CleanEntries(entries: seq<Json>): (r: Result<seq<string>, DetectionError>)
    ensures r.Err? ==> r.error == BrandNotAString
    ensures r.Err? <==> exists e :: e in entries && Truthy(e) && !e.JString?
    ensures r.Ok? ==> forall b :: b in r.value ==> b != [] && IsStripped(b)
  {
    if entries == [] then Ok([])
    else
      var e := entries[0];
      var rest := CleanEntries(entries[1..]);
      assert forall x :: x in entries <==> x == e || x in entries[1..];
      if !Truthy(e) then rest
      else if !e.JString? then Err(BrandNotAString)
      else if Strip(e.s) == [] then rest
      else if rest.Err? then rest
      else Ok([Strip(e.s)] + rest.value)
  }

  /** One entry in front of the others: a non-blank string is kept, stripped. */
  lemma CleanEntriesCons(entries: seq<Json>)
    requires entries != [] && entries[0].JString? && Strip(entries[0].s) != []
    ensures CleanEntries(entries) == match CleanEntries(entries[1..])
      case Err(e) => Err(e)
      case Ok(rest) => Ok([Strip(entries[0].s)] + rest)
  {
  }

  /** A list that cleans without error is exactly the non-blank stripped
      texts of the entries, in order and with their repeats. */
  lemma {:induction false} CleanEntriesKept(entries: seq<Json>)
    requires CleanEntries(entries).Ok?
    ensures CleanEntries(entries).value == NonEmpty(EntryTexts(entries))
  {
    if entries != [] {
      var e := entries[0];
      var t := EntryTexts(entries);
      assert t[0] == EntryText(e) && t[1..] == EntryTexts(entries[1..]);
      assert NonEmpty(t) == if t[0] == [] then NonEmpty(t[1..]) else [t[0]] + NonEmpty(t[1..]);
      assert Truthy(e) ==> e.JString?;
      CleanEntriesKept(entries[1..]);
    }
  }

  /** The cleaned list keeps the order of the entries it comes from, and
      each non-blank text appears as often as it occurs among them. */
  lemma CleanEntriesInOrder(entries: seq<Json>)
    requires CleanEntries(entries).Ok?
    ensures IsSubseq(CleanEntries(entries).value, EntryTexts(entries))
    ensures forall x ::
      multiset(CleanEntries(entries).value)[x] == if x == [] then 0 else multiset(EntryTexts(entries))[x]
  {
    CleanEntriesKept(entries);
    NonEmptyInOrder(EntryTexts(entries));
  }

  /** The names the company uses for itself, which are never reported. */
  const ExcludedBrands: seq<string> := ["hergon", "grupo hergon", "hergon sa", "grupo hergon sa"]

  predicate Excluded(brand: string) {
    exists e :: e in ExcludedBrands && Contains(Lower(brand), Lower(e))
  }

  /** The brands that name none of the excluded variants, in order. */
  function FilterExcluded(brands: seq<string>): (r: seq<string>)
    ensures forall b :: b in r <==> b in brands && !Excluded(b)
    ensures IsSubseq(r, brands)
  {
    if brands == [] then []
    else
      var rest := FilterExcluded(brands[1..]);
      assert forall x :: x in brands <==> x == brands[0] || x in brands[1..];
      if Excluded(brands[0]) then
        SubseqCons(rest, brands[1..], brands[0]);
        assert [brands[0]] + brands[1..] == brands;
        rest
      else
        assert ([brands[0]] + rest)[1..] == rest;
        [brands[0]] + rest
  }

  /** The denylist removes every occurrence of an excluded brand and keeps
      every occurrence of the others: it removes no duplicates. */
  lemma {:induction false} FilterExcludedCounts(brands: seq<string>)
    ensures forall b :: multiset(FilterExcluded(brands))[b] == if Excluded(b) then 0 else multiset(brands)[b]
  {
    if brands != [] {
      FilterExcludedCounts(brands[1..]);
      assert brands == [brands[0]] + brands[1..];
      var rest := FilterExcluded(brands[1..]);
      assert FilterExcluded(brands) == if Excluded(brands[0]) then rest else [brands[0]] + rest;
    }
  }

  lemma LowerOfLowercase(s: string)
    requires forall k :: 0 <= k < |s| ==> 'a' <= s[k] <= 'z' || s[k] == ' '
    ensures Lower(s) == s
  {
  }

  lemma ContainsHergon(prefix: string, suffix: string)
    ensures Contains(prefix + "hergon" + suffix, "hergon")
  {
    var s := prefix + "hergon" + suffix;
    assert s[|prefix|..][..6] == "hergon";
    ContainsAt(s, "hergon", |prefix|);
  }

  /** Every excluded variant, lowered, contains "hergon". */
  lemma VariantContainsHergon(e: string)
    requires e in ExcludedBrands
    ensures Contains(Lower(e), "hergon")
  {
    if e == "grupo hergon" {
      LowerOfLowercase("grupo hergon");
      ContainsHergon("grupo ", "");
      assert "grupo " + "hergon" + "" == e;
    } else if e == "hergon sa" {
      LowerOfLowercase("hergon sa");
      ContainsHergon("", " sa");
      assert "" + "hergon" + " sa" == e;
    } else if e == "grupo hergon sa" {
      LowerOfLowercase("grupo hergon sa");
      ContainsHergon("grupo ", " sa");
      assert "grupo " + "hergon" + " sa" == e;
    } else {
      LowerOfLowercase("hergon");
      ContainsHergon("", "");
      assert "" + "hergon" + "" == e;
    }
  }

  /** Since every excluded variant contains "hergon", the denylist drops
      exactly the brands whose lowercase form contains "hergon". */
  lemma ExcludedIffHergon(brand: string)
    ensures Excluded(brand) <==> Contains(Lower(brand), "hergon")
  {
    if Excluded(brand) {
      var e :| e in ExcludedBrands && Contains(Lower(brand), Lower(e));
      VariantContainsHergon(e);
      ContainsTransitive(Lower(brand), Lower(e), "hergon");
    } else {
      LowerOfLowercase("hergon");
      assert "hergon" in ExcludedBrands;
    }
  }

  /** The cleaning and the denylist applied to the brand entries. */
  function NormalizeBrands(entries: seq<Json>): Result<seq<string>, DetectionError> {
    match CleanEntries(entries)
    case Ok(brands) => Ok(FilterExcluded(brands))
    case Err(e) => Err(e)
  }

  /** Each reported brand is stripped, non-empty, free of "hergon" in any
      casing, and the brands keep their order in the reply. Every other
      non-blank text is reported as often as the reply lists it: there is
      no deduplication, in any casing. */
  lemma NormalizedBrands(entries: seq<Json>)
    requires NormalizeBrands(entries).Ok?
    ensures forall b :: b in NormalizeBrands(entries).value ==>
      b != [] && IsStripped(b) && !Contains(Lower(b), "hergon")
    ensures IsSubseq(NormalizeBrands(entries).value, EntryTexts(entries))
    ensures NormalizeBrands(entries).value == FilterExcluded(NonEmpty(EntryTexts(entries)))
    ensures forall b ::
      multiset(NormalizeBrands(entries).value)[b]
        == if b == [] || Contains(Lower(b), "hergon") then 0 else multiset(EntryTexts(entries))[b]
  {
    var cleaned := CleanEntries(entries).value;
    var r := FilterExcluded(cleaned);
    forall b | b in r ensures b != [] && IsStripped(b) && !Contains(Lower(b), "hergon") {
      ExcludedIffHergon(b);
    }
    CleanEntriesKept(entries);
    CleanEntriesInOrder(entries);
    FilterExcludedCounts(cleaned);
    SubseqTransitive(r, cleaned, EntryTexts(entries));
    forall b ensures multiset(r)[b] ==
      (if b == [] || Contains(Lower(b), "hergon") then 0 else multiset(EntryTexts(entries))[b])
    {
      ExcludedIffHergon(b);
    }
  }

  function AsJson(brands: seq<string>): (r: seq<Json>)
    ensures |r| == |brands|
    ensures forall k :: 0 <= k < |r| ==> r[k] == JString(brands[k])
  {
    seq(|brands|, k requires 0 <= k < |brands| => JString(brands[k]))
  }

  lemma {:induction false} CleanEntriesOfClean(brands: seq<string>)
    requires forall b :: b in brands ==> b != [] && IsStripped(b)
    ensures CleanEntries(AsJson(brands)) == Ok(brands)
  {
    if brands != [] {
      var entries := AsJson(brands);
      assert forall b :: b in brands[1..] ==> b in brands;
      CleanEntriesOfClean(brands[1..]);
      assert entries[1..] == AsJson(brands[1..]);
      StripStripped(brands[0]);
      CleanEntriesCons(entries);
      assert entries[0] == JString(brands[0]) && Truthy(entries[0]);
      assert [brands[0]] + brands[1..] == brands;
    }
  }

  lemma {:induction false} FilterExcludedOfKept(brands: seq<string>)
    requires forall b :: b in brands ==> !Excluded(b)
    ensures FilterExcluded(brands) == brands
  {
    if brands != [] {
      assert forall b :: b in brands[1..] ==> b in brands;
      FilterExcludedOfKept(brands[1..]);
      assert [brands[0]] + brands[1..] == brands;
    }
  }

  /** Cleaning an already cleaned list changes nothing. */
  lemma NormalizeIdempotent(entries: seq<Json>)
    requires NormalizeBrands(entries).Ok?
    ensures NormalizeBrands(AsJson(NormalizeBrands(entries).value)) == NormalizeBrands(entries)
  {
    var r := NormalizeBrands(entries).value;
    NormalizedBrands(entries);
    CleanEntriesOfClean(r);
    FilterExcludedOfKept(r);
  }

  /** Brands differing only in case are both reported: there is no
      deduplication. */
  lemma NoDeduplication()
    ensures NormalizeBrands([JString("Samsung"), JString("SAMSUNG"), JString("Bosch")])
      == Ok(["Samsung", "SAMSUNG", "Bosch"])
  {
    var brands := ["Samsung", "SAMSUNG", "Bosch"];
    assert AsJson(brands) == [JString("Samsung"), JString("SAMSUNG"), JString("Bosch")];
    SampleBrandsKept();
    CleanEntriesOfClean(brands);
    FilterExcludedOfKept(brands);
  }

  lemma SampleBrandsKept()
    ensures forall b :: b in ["Samsung", "SAMSUNG", "Bosch"] ==> b != [] && IsStripped(b) && !Excluded(b)
  {
    NoHergon("Samsung", 0);
    NoHergon("SAMSUNG", 0);
    NoHergon("Bosch", 2);
  }

  /** A brand none of whose letters lowers to the `k`-th letter of
      "hergon" is not excluded. */
  lemma NoHergon(b: string, k: nat)
    requires k < 6 && forall i :: 0 <= i < |b| ==> LowerChar(b[i]) != "hergon"[k]
    ensures !Excluded(b)
  {
    MissingCharNotContained(Lower(b), "hergon", k);
    ExcludedIffHergon(b);
  }

  /** One page: the reply is cut, decoded, validated and cleaned; every
      failure is reported, none becomes an empty result. */
  function DetectBrandsInImage(reply: Option<string>, parse: string -> Option<Json>, pageNumber: int): (r: Result<BrandDetectionCreate, DetectionError>)
    ensures reply.None? ==> r == Err(CallFailed)
    ensures reply.Some? && parse(JsonCandidate(reply.value)).None? ==> r == Err(JsonDecodeError)
    ensures reply.Some? && parse(JsonCandidate(reply.value)).Some? ==>
      match BrandEntries(parse(JsonCandidate(reply.value)).value)
      case Err(e) => r == Err(e)
      case Ok(entries) => r == match NormalizeBrands(entries)
        case Ok(brands) => Ok(BrandDetectionCreate(pageNumber, brands))
        case Err(e) => Err(e)
    ensures r.Ok? ==> r.value.pageNumber == pageNumber
  {
    if reply.None? then Err(CallFailed)
    else
      match parse(JsonCandidate(reply.value))
      case None => Err(JsonDecodeError)
      case Some(result) =>
        match BrandEntries(result)
        case Err(e) => Err(e)
        case Ok(entries) =>
          match NormalizeBrands(entries)
          case Err(e) => Err(e)
          case Ok(brands) => Ok(BrandDetectionCreate(pageNumber, brands))
  }

  /** What a page contributes to the batch: its detection, or an empty
      brand list under its own page number when the detection raised. */
  function PageResult(reply: Option<string>, parse: string -> Option<Json>, pageNumber: int): (r: BrandDetectionCreate)
    ensures r.pageNumber == pageNumber
    ensures DetectBrandsInImage(reply, parse, pageNumber).Ok? ==> r == DetectBrandsInImage(reply, parse, pageNumber).value
    ensures DetectBrandsInImage(reply, parse, pageNumber).Err? ==> r.brandsDetected == []
  {
    match DetectBrandsInImage(reply, parse, pageNumber)
    case Ok(d) => d
    case Err(_) => BrandDetectionCreate(pageNumber, [])
  }

  /** Every page gets exactly one result, numbered from 1 in order; a page
      whose detection raised gets an empty brand list. */
  method DetectBrandsInMultipleImages(replies: seq<Option<string>>, parse: string -> Option<Json>)
    returns (results: seq<BrandDetectionCreate>)
    ensures |results| == |replies|
    ensures forall i :: 0 <= i < |results| ==> results[i] == PageResult(replies[i], parse, i + 1)
  {
    results := [];
    for i := 0 to |replies|
      invariant |results| == i
      invariant forall k :: 0 <= k < i ==> results[k] == PageResult(replies[k], parse, k + 1)
    {
      var outcome := DetectBrandsInImage(replies[i], parse, i + 1);
      var page: BrandDetectionCreate;
      if outcome.Err? {
        page := BrandDetectionCreate(i + 1, []);
      } else {
        page := outcome.value;
      }
      assert page == PageResult(replies[i], parse, i + 1);
      ResultsStep(results, replies, parse, page);
      results := results + [page];
    }
  }

  lemma ResultsStep(results: seq<BrandDetectionCreate>, replies: seq<Option<string>>, parse: string -> Option<Json>,
                    page: BrandDetectionCreate)
    requires |results| < |replies|
    requires forall k :: 0 <= k < |results| ==> results[k] == PageResult(replies[k], parse, k + 1)
    requires page == PageResult(replies[|results|], parse, |results| + 1)
    ensures forall k :: 0 <= k < |results| + 1 ==> (results + [page])[k] == PageResult(replies[k], parse, k + 1)
  {
  }
}
