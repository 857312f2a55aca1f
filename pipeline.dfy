/**
 * `parse_business_page` after the fetch: the business record and the
 * reviews of one parsed page, cut to `max_reviews`, filtered, counted into
 * the rating histogram and joined into one flat record per kept review.
 */
module Pipeline {

  import opened Seqs
  import opened Text
  import opened Dom
  import opened Dates
  import opened Records
  import opened Filters
  import opened BusinessExtraction
  import opened RatingHistogram
  import opened ReviewExtraction
  import opened Containers

  /**
   * How the page pipeline fails after the fetch: an ld+json script makes a
   * business strategy raise, or `int()` rejects `max_reviews`.
   */
  datatype PageError =
    | ScriptRaises(error: ScriptError)
    | InvalidMaxReviews(value: SettingValue)

  const DefaultMaxReviews: int := 200

  /** `int(settings.get("max_reviews", 200))`. */
  function MaxReviews(settings: Settings): (r: Result<int, PageError>)
    ensures "max_reviews" !in settings ==> r == Ok(DefaultMaxReviews)
    ensures "max_reviews" in settings ==>
      (r.Ok? <==> IntOf(settings["max_reviews"]).Some?) &&
      (r.Ok? ==> r.value == IntOf(settings["max_reviews"]).value) &&
      (r.Failure? ==> r.error == InvalidMaxReviews(settings["max_reviews"]))
  {
    if "max_reviews" !in settings then Ok(DefaultMaxReviews)
    else
      match IntOf(settings["max_reviews"])
      case Some(n) => Ok(n)
      case None => Failure(InvalidMaxReviews(settings["max_reviews"]))
  }

  /** A limit given as decimal text, with any surrounding whitespace, is read at its value. */
  lemma MaxReviewsReadsText(settings: Settings, n: int, pre: string, post: string)
    requires forall i :: 0 <= i < |pre| ==> IsSpace(pre[i])
    requires forall i :: 0 <= i < |post| ==> IsSpace(post[i])
    requires "max_reviews" in settings && settings["max_reviews"] == TextValue(pre + IntToString(n) + post)
    ensures MaxReviews(settings) == Ok(n)
  {
    IntLiteralRoundTrip(n, pre, post);
  }

  /** An explicit null, a list or an object is not a limit: the page fails instead of being cut. */
  lemma MaxReviewsRejectsNonNumbers(settings: Settings)
    requires "max_reviews" in settings
    requires settings["max_reviews"].NullValue? || settings["max_reviews"].OtherValue?
    ensures MaxReviews(settings) == Failure(InvalidMaxReviews(settings["max_reviews"]))
  {
  }

  /**
   * Python's `s[:n]`: the first `n` elements, the whole list when it is
   * shorter; a negative `n` drops the last `-n` elements instead.
   */
  function Truncate<T>(s: seq<T>, n: int): (r: seq<T>)
    ensures |r| <= |s| && r == s[..|r|]
    ensures 0 <= n ==> |r| == if n < |s| then n else |s|
    ensures n < 0 ==> |r| == if -n < |s| then |s| + n else 0
  {
    if 0 <= n then
      if n < |s| then s[..n] else s
    else
      if -n < |s| then s[..|s| + n] else []
  }

  /** A list no longer than a non-negative limit is left whole, and cutting twice to it is cutting once. */
  lemma TruncateWithinLimit<T>(s: seq<T>, n: int)
    requires 0 <= n
    ensures |s| <= n ==> Truncate(s, n) == s
    ensures Truncate(Truncate(s, n), n) == Truncate(s, n)
  {
  }

  /** The fields every record of a page shares, with one review's fields. */
  function RecordOf(business: BusinessInfo, histogram: map<string, nat>, review: Review): OutputRecord
  {
    OutputRecord(business, histogram, review)
  }

  /** The records for a page: one per review, in order, all carrying the same business fields and histogram. */
  function RecordsFor(business: BusinessInfo, histogram: map<string, nat>, reviews: seq<Review>): (records: seq<OutputRecord>)
    ensures |records| == |reviews|
    ensures forall i :: 0 <= i < |reviews| ==>
      records[i].business == business && records[i].reviewCountsByRating == histogram && records[i].review == reviews[i]
  {
    Map(reviews, (review: Review) => RecordOf(business, histogram, review))
  }

  /** The records loop of `parse_business_page`. */
  method BuildRecords(business: BusinessInfo, histogram: map<string, nat>, reviews: seq<Review>)
    returns (records: seq<OutputRecord>)
    ensures records == RecordsFor(business, histogram, reviews)
  {
    records := [];
    for i := 0 to |reviews|
      invariant |records| == i
      invariant forall j :: 0 <= j < i ==> records[j] == RecordOf(business, histogram, reviews[j])
    {
      records := records + [OutputRecord(business, histogram, reviews[i])];
    }
  }

  /** The reviews a page keeps: the first `n` parsed ones, then those that pass the filters. */
  function KeptReviews(doc: Node, settings: Settings, codec: DateCodec, n: int): seq<Review>
  {
    Filtered(Truncate(ParsedReviews(ReviewContainers(doc), codec), n), FromSettings(settings, codec), codec)
  }

  /** What `parse_business_page` returns for a fetched page. */
  function PageRecords(doc: Node, url: string, settings: Settings, codec: DateCodec, decode: JsonDecoder)
    : Result<seq<OutputRecord>, PageError>
  {
    match BusinessInfoOf(doc, url, decode)
    case Failure(e) => Failure(ScriptRaises(e))
    case Ok(business) =>
      match MaxReviews(settings)
      case Failure(e) => Failure(e)
      case Ok(n) =>
        var kept := KeptReviews(doc, settings, codec, n);
        Ok(RecordsFor(business, Histogram(kept), kept))
  }

  /**
   * `parse_business_page` once the page is parsed: business record, reviews,
   * cut to `max_reviews`, filters, histogram of the kept reviews, records.
   */
  method ParseBusinessPage(doc: Node, url: string, settings: Settings, codec: DateCodec, decode: JsonDecoder)
    returns (r: Result<seq<OutputRecord>, PageError>)
    ensures r == PageRecords(doc, url, settings, codec, decode)
  {
    var business := ParseBusinessInfo(doc, url, decode);
    if business.Failure? {
      return Failure(ScriptRaises(business.error));
    }
    var reviews := ParseReviews(doc, codec);
    var maxReviews := MaxReviews(settings);
    if maxReviews.Failure? {
      return Failure(maxReviews.error);
    }
    reviews := Truncate(reviews, maxReviews.value);
    var filters := FromSettings(settings, codec);
    reviews := ApplyFilters(reviews, filters, codec);
    var histogram := BuildRatingHistogram(reviews);
    var records := BuildRecords(business.value, histogram, reviews);
    r := Ok(records);
  }

  // ---------------------------------------------------------------------
  // What a page's records satisfy
  // ---------------------------------------------------------------------

  function ReviewsOf(records: seq<OutputRecord>): seq<Review>
  {
    Map(records, (rec: OutputRecord) => rec.review)
  }

  /**
   * After the fetch the page fails exactly when a business strategy raises
   * on an ld+json script or `max_reviews` is not an integer, the business
   * record's error being the one reported; a review block that fails is
   * skipped and never fails the page.
   */
  lemma PageFailures(doc: Node, url: string, settings: Settings, codec: DateCodec, decode: JsonDecoder)
    ensures PageRecords(doc, url, settings, codec, decode).Failure? <==>
      BusinessInfoOf(doc, url, decode).Failure? || MaxReviews(settings).Failure?
    ensures BusinessInfoOf(doc, url, decode).Failure? ==>
      PageRecords(doc, url, settings, codec, decode) == Failure(ScriptRaises(BusinessInfoOf(doc, url, decode).error))
    ensures BusinessInfoOf(doc, url, decode).Ok? && MaxReviews(settings).Failure? ==>
      PageRecords(doc, url, settings, codec, decode) == Failure(MaxReviews(settings).error)
  {
  }

  /**
   * With no usable star widget, a first ld+json script whose `@type` is a
   * list fails the whole page, whatever its reviews.
   */
  lemma UnhashableTypeFailsPage(doc: Node, url: string, settings: Settings, codec: DateCodec, decode: JsonDecoder)
    requires WidgetRating(doc).None?
    requires FindAll(doc, IsLdScript) != []
    requires decode(ScriptText(FindAll(doc, IsLdScript)[0])).Some?
    requires decode(ScriptText(FindAll(doc, IsLdScript)[0])).value.kind.TypeUnhashable?
    ensures PageRecords(doc, url, settings, codec, decode) == Failure(ScriptRaises(UnhashableType))
  {
    UnhashableTypeRaises(doc, decode);
  }

  /**
   * With no `address` tag text, a first business script whose postal code is
   * a number fails the whole page, even when the rating came from the widget.
   */
  lemma NumericPostalCodeFailsPage(
    doc: Node, url: string, settings: Settings, codec: DateCodec, decode: JsonDecoder, rec: LdRecord)
    requires WidgetRating(doc).Some? && AddressTagText(doc).None?
    requires FindAll(doc, IsLdScript) != []
    requires decode(ScriptText(FindAll(doc, IsLdScript)[0])) == Some(rec)
    requires rec.kind.TypeText? && IsBusinessType(rec.kind.name)
    requires rec.address.Some? && rec.address.value.postalCode.OtherPart?
    ensures PageRecords(doc, url, settings, codec, decode) == Failure(ScriptRaises(AddressPartNotText))
  {
    var scripts := FindAll(doc, IsLdScript);
    var a := rec.address.value;
    NumericPostalCodeRaises(a.streetAddress, a.addressLocality, a.addressRegion);
    assert a == LdAddress(a.streetAddress, a.addressLocality, a.addressRegion, OtherPart);
    assert AddressStep(decode)(scripts[0]) == Some(Failure(AddressPartNotText));
    assert FirstHit(scripts, AddressStep(decode)) == 0;
  }

  /**
   * Every record carries the page's business fields and the histogram of
   * the records' own reviews (whose buckets add up to the number of them
   * rated 1 to 5, by HistogramTotal).
   */
  lemma RecordsShareBusinessAndHistogram(
    doc: Node, url: string, settings: Settings, codec: DateCodec, decode: JsonDecoder, records: seq<OutputRecord>)
    requires PageRecords(doc, url, settings, codec, decode) == Ok(records)
    ensures BusinessInfoOf(doc, url, decode).Ok?
    ensures forall i :: 0 <= i < |records| ==>
      records[i].business == BusinessInfoOf(doc, url, decode).value &&
      records[i].reviewCountsByRating == Histogram(ReviewsOf(records))
    ensures var kept := Filtered(
        Truncate(ParsedReviews(ReviewContainers(doc), codec), MaxReviews(settings).value), FromSettings(settings, codec), codec);
      ReviewsOf(records) == kept &&
      forall i :: 0 <= i < |records| ==> records[i].reviewCountsByRating == Histogram(kept)
  {
    var business := BusinessInfoOf(doc, url, decode).value;
    var kept := KeptReviews(doc, settings, codec, MaxReviews(settings).value);
    assert records == RecordsFor(business, Histogram(kept), kept);
    assert ReviewsOf(records) == kept;
  }

  /**
   * The records' reviews are the kept reviews in order: a subsequence of the
   * first `max_reviews` parsed reviews, each passing both filter rules, and
   * never more of them than the limit allows.
   */
  lemma RecordsAreFilteredPrefix(doc: Node, url: string, settings: Settings, codec: DateCodec, decode: JsonDecoder)
    requires PageRecords(doc, url, settings, codec, decode).Ok?
    ensures var n := MaxReviews(settings).value;
      var parsed := ParsedReviews(ReviewContainers(doc), codec);
      var reviews := ReviewsOf(PageRecords(doc, url, settings, codec, decode).value);
      IsSubsequence(reviews, Truncate(parsed, n)) &&
      (0 <= n ==> |reviews| <= n) &&
      forall r :: r in reviews <==> (r in Truncate(parsed, n) &&
        PassesRatingFilter(r, FromSettings(settings, codec)) && PassesDateFilter(r, FromSettings(settings, codec), codec))
    ensures ReviewsOf(PageRecords(doc, url, settings, codec, decode).value) ==
      Filtered(Truncate(ParsedReviews(ReviewContainers(doc), codec), MaxReviews(settings).value), FromSettings(settings, codec), codec)
  {
    var n := MaxReviews(settings).value;
    var parsed := ParsedReviews(ReviewContainers(doc), codec);
    var f := FromSettings(settings, codec);
    var reviews := ReviewsOf(PageRecords(doc, url, settings, codec, decode).value);
    assert reviews == Filtered(Truncate(parsed, n), f, codec);
    FilteredIsSubsequence(Truncate(parsed, n), f, codec);
    forall r ensures r in reviews <==> r in Truncate(parsed, n) && PassesRatingFilter(r, f) && PassesDateFilter(r, f, codec) {
      FilterMembership(Truncate(parsed, n), Passes(f, codec), r);
    }
  }

  /**
   * The cut comes before the filter: when none of the first `max_reviews`
   * parsed reviews passes, the page has no records, however many later
   * reviews would have passed.
   */
  lemma CutBeforeFilter(doc: Node, url: string, settings: Settings, codec: DateCodec, decode: JsonDecoder)
    requires MaxReviews(settings).Ok?
    requires var head := Truncate(ParsedReviews(ReviewContainers(doc), codec), MaxReviews(settings).value);
      forall i :: 0 <= i < |head| ==> !Passes(FromSettings(settings, codec), codec)(head[i])
    ensures PageRecords(doc, url, settings, codec, decode).Ok? <==> BusinessInfoOf(doc, url, decode).Ok?
    ensures PageRecords(doc, url, settings, codec, decode).Ok? ==> PageRecords(doc, url, settings, codec, decode).value == []
  {
    var head := Truncate(ParsedReviews(ReviewContainers(doc), codec), MaxReviews(settings).value);
    FilterEmpty(head, Passes(FromSettings(settings, codec), codec));
  }

  /** A page where no node matches a locating rule gives no records, and no error of its own. */
  lemma NoContainersNoRecords(doc: Node, url: string, settings: Settings, codec: DateCodec, decode: JsonDecoder)
    requires MaxReviews(settings).Ok?
    requires forall i :: 0 <= i < |Descendants(doc)| ==> !MatchesAnyStrategy(Descendants(doc)[i])
    ensures PageRecords(doc, url, settings, codec, decode).Ok? <==> BusinessInfoOf(doc, url, decode).Ok?
    ensures PageRecords(doc, url, settings, codec, decode).Ok? ==> PageRecords(doc, url, settings, codec, decode).value == []
  {
    assert ReviewContainers(doc) == [];
  }

  /**
   * The stored date and the date filter agree: with a parser that reads its
   * own ISO output back, a non-empty date shown as `raw` and stored by
   * IsoDate passes the date rule exactly when no `from_date` is set or the
   * parsed date is no earlier than it; without a date, a review passes only
   * when none is set.
   */
  lemma StoredDateMeetsDateRule(raw: Option<string>, review: Review, f: ReviewFilters, codec: DateCodec)
    requires IsoRoundTrips(codec)
    requires IsoDate(raw, codec) == Ok(review.reviewDate)
    ensures raw.Some? && raw.value != "" && codec.parse(raw.value).Some? ==>
      (PassesDateFilter(review, f, codec) <==> f.fromDate.None? || codec.parse(raw.value).value >= f.fromDate.value)
    ensures raw.None? ==> (PassesDateFilter(review, f, codec) <==> f.fromDate.None?)
  {
    if raw.Some? && raw.value != "" && codec.parse(raw.value).Some? {
      var d := codec.parse(raw.value).value;
      assert review.reviewDate == Some(codec.iso(d));
      assert codec.iso(d) != "" && codec.parse(codec.iso(d)) == Some(d);
    }
  }

  /** The same, for a review as `_parse_single_review` builds it from a block. */
  lemma ParsedDateMeetsDateRule(c: Node, f: ReviewFilters, codec: DateCodec)
    requires IsoRoundTrips(codec)
    requires ReviewOf(c, codec).Ok?
    ensures var raw := ReviewDateRaw(c);
      raw.Some? && codec.parse(raw.value).Some? ==>
        (PassesDateFilter(ReviewOf(c, codec).value, f, codec) <==>
          f.fromDate.None? || codec.parse(raw.value).value >= f.fromDate.value)
    ensures ReviewDateRaw(c).None? ==>
      (PassesDateFilter(ReviewOf(c, codec).value, f, codec) <==> f.fromDate.None?)
  {
    StoredDateMeetsDateRule(ReviewDateRaw(c), ReviewOf(c, codec).value, f, codec);
  }
}
