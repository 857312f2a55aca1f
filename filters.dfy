/**
 * The review filter: its configuration, built from the scraper settings
 * without ever failing, and the rating and date rules that decide which
 * reviews are kept.
 */
module Filters {

  import opened Seqs
  import opened Text
  import opened Dates
  import opened Records

  /** A configuration value as JSON settings deliver it. */
  datatype SettingValue =
    | NullValue
    | IntValue(i: int)
    | FloatValue(truncated: int, nonZero: bool, repr: string)  // a finite float, its integer part toward zero
    | BoolValue(b: bool)
    | TextValue(s: string)
    | OtherValue(truthy: bool, repr: string)  // a list or an object

  type Settings = map<string, SettingValue>

  /** `settings.get(key)`. */
  function Get(settings: Settings, key: string): SettingValue
  {
    if key in settings then settings[key] else NullValue
  }

  /** `int(v)`; None where Python raises TypeError or ValueError. */
  function IntOf(v: SettingValue): Option<int>
  {
    match v
    case NullValue => None
    case IntValue(i) => Some(i)
    case FloatValue(t, _, _) => Some(t)
    case BoolValue(b) => Some(if b then 1 else 0)
    case TextValue(s) => ParseIntLiteral(s)
    case OtherValue(_, _) => None
  }

  /** Python truthiness of a setting. */
  predicate Truthy(v: SettingValue)
  {
    match v
    case NullValue => false
    case IntValue(i) => i != 0
    case FloatValue(_, nonZero, _) => nonZero
    case BoolValue(b) => b
    case TextValue(s) => s != ""
    case OtherValue(t, _) => t
  }

  /** `str(v)`. */
  function StrOf(v: SettingValue): string
  {
    match v
    case NullValue => "None"
    case IntValue(i) => IntToString(i)
    case FloatValue(_, _, r) => r
    case BoolValue(b) => if b then "True" else "False"
    case TextValue(s) => s
    case OtherValue(_, r) => r
  }

  /** `ReviewFilters`: an unset bound or date is None. */
  datatype ReviewFilters = ReviewFilters(minRating: Option<int>, maxRating: Option<int>, fromDate: Option<Instant>)

  /** `from_settings` for one rating bound: a value `int()` rejects is dropped. */
  function RatingBound(v: SettingValue): (b: Option<int>)
    ensures v.NullValue? ==> b.None?
    ensures b.Some? <==> IntOf(v).Some?
  {
    if !v.NullValue? then IntOf(v) else None
  }

  /** `from_settings` for `from_date`: a falsy or unparseable value leaves the date unset. */
  function FromDate(v: SettingValue, codec: DateCodec): (d: Option<Instant>)
    ensures !Truthy(v) ==> d.None?
    ensures d.Some? ==> codec.parse(StrOf(v)) == d
    ensures Truthy(v) && codec.parse(StrOf(v)).Some? ==> d.Some?
  {
    if Truthy(v) then
      match ParseReviewDate(codec, StrOf(v))
      case Ok(instant) => Some(instant)
      case Failure(_) => None
    else None
  }

  /** `ReviewFilters.from_settings`: never fails; a bad value becomes an unset constraint. */
  function FromSettings(settings: Settings, codec: DateCodec): (f: ReviewFilters)
    ensures f.minRating == RatingBound(Get(settings, "min_rating"))
    ensures f.maxRating == RatingBound(Get(settings, "max_rating"))
    ensures f.fromDate == FromDate(Get(settings, "from_date"), codec)
  {
    ReviewFilters(
      RatingBound(Get(settings, "min_rating")),
      RatingBound(Get(settings, "max_rating")),
      FromDate(Get(settings, "from_date"), codec))
  }

  /** A bound written as an integer, or as its decimal text with any padding, is taken at its value. */
  lemma RatingBoundReadsIntegers(n: int, pre: string, post: string)
    requires forall i :: 0 <= i < |pre| ==> IsSpace(pre[i])
    requires forall i :: 0 <= i < |post| ==> IsSpace(post[i])
    ensures RatingBound(IntValue(n)) == Some(n)
    ensures RatingBound(FloatValue(n, true, IntToString(n) + ".5")) == Some(n)
    ensures RatingBound(TextValue(pre + IntToString(n) + post)) == Some(n)
  {
    IntLiteralRoundTrip(n, pre, post);
  }

  /** A bound that is not an integer literal is dropped instead of failing the run. */
  lemma RatingBoundDropsGarbage(s: string)
    requires ParseIntLiteral(s).None?
    ensures RatingBound(TextValue(s)) == None
    ensures RatingBound(TextValue("four")) == None
    ensures RatingBound(OtherValue(true, "[4]")) == None
  {
    assert Strip("four") == "four";
  }

  // ---------------------------------------------------------------------
  // The two rules
  // ---------------------------------------------------------------------

  /**
   * `_passes_rating_filter`: a known rating must lie within the bounds that
   * are set; an unknown rating passes only when no bound is set.
   */
  predicate PassesRatingFilter(review: Review, f: ReviewFilters): (ok: bool)
    ensures review.reviewerRating.Some? ==>
      (ok <==> (f.minRating.None? || f.minRating.value <= review.reviewerRating.value) &&
               (f.maxRating.None? || review.reviewerRating.value <= f.maxRating.value))
    ensures review.reviewerRating.None? ==> (ok <==> f.minRating.None? && f.maxRating.None?)
    ensures f.minRating.Some? && f.maxRating.Some? && f.minRating.value > f.maxRating.value ==> !ok
  {
    match review.reviewerRating
    case None => f.minRating.None? && f.maxRating.None?
    case Some(rating) =>
      !(f.minRating.Some? && rating < f.minRating.value) &&
      !(f.maxRating.Some? && rating > f.maxRating.value)
  }

  /**
   * `_passes_date_filter`: with a `from_date` set, a review needs a non-empty
   * date that parses to an instant no earlier than `from_date`.
   */
  predicate PassesDateFilter(review: Review, f: ReviewFilters, codec: DateCodec): (ok: bool)
    ensures f.fromDate.None? ==> ok
    ensures f.fromDate.Some? ==>
      (ok <==> (review.reviewDate.Some? && review.reviewDate.value != "" &&
        codec.parse(review.reviewDate.value).Some? && codec.parse(review.reviewDate.value).value >= f.fromDate.value))
  {
    if f.fromDate.None? then true
    else if review.reviewDate.None? || review.reviewDate.value == "" then false
    else
      match EnsureDateTime(StringArg(review.reviewDate.value), codec)
      case Failure(_) => false
      case Ok(instant) => instant >= f.fromDate.value
  }

  /** A review kept from some `from_date` on is kept from any earlier one. */
  lemma DateRuleMonotone(review: Review, early: ReviewFilters, late: ReviewFilters, codec: DateCodec)
    requires early.fromDate.Some? && late.fromDate.Some? && early.fromDate.value <= late.fromDate.value
    requires PassesDateFilter(review, late, codec)
    ensures PassesDateFilter(review, early, codec)
  {
  }

  function Passes(f: ReviewFilters, codec: DateCodec): Review -> bool
  {
    (r: Review) => PassesRatingFilter(r, f) && PassesDateFilter(r, f, codec)
  }

  /** What `apply_filters` returns, as a function of its input. */
  function Filtered(reviews: seq<Review>, f: ReviewFilters, codec: DateCodec): seq<Review>
  {
    Filter(reviews, Passes(f, codec))
  }

  /** `apply_filters`: keeps, in order, the reviews that pass both rules. */
  method ApplyFilters(reviews: seq<Review>, f: ReviewFilters, codec: DateCodec) returns (result: seq<Review>)
    ensures result == Filtered(reviews, f, codec)
    ensures IsSubsequence(result, reviews)
    ensures forall r :: r in result <==>
      r in reviews && PassesRatingFilter(r, f) && PassesDateFilter(r, f, codec)
  {
    result := [];
    for i := 0 to |reviews|
      invariant result == Filtered(reviews[..i], f, codec)
    {
      assert reviews[..i + 1][..i] == reviews[..i];
      var review := reviews[i];
      if !PassesRatingFilter(review, f) {
        continue;
      }
      if !PassesDateFilter(review, f, codec) {
        continue;
      }
      result := result + [review];
    }
    assert reviews[..|reviews|] == reviews;
    FilterIsSubsequence(reviews, Passes(f, codec));
    forall r ensures r in result <==> r in reviews && Passes(f, codec)(r) {
      FilterMembership(reviews, Passes(f, codec), r);
    }
  }

  /** Filtering again with the same filters changes nothing. */
  lemma FilteredIdempotent(reviews: seq<Review>, f: ReviewFilters, codec: DateCodec)
    ensures Filtered(Filtered(reviews, f, codec), f, codec) == Filtered(reviews, f, codec)
  {
    FilterIdempotent(reviews, Passes(f, codec));
  }

  /** Filtering never adds, reorders or invents reviews. */
  lemma FilteredIsSubsequence(reviews: seq<Review>, f: ReviewFilters, codec: DateCodec)
    ensures IsSubsequence(Filtered(reviews, f, codec), reviews)
    ensures |Filtered(reviews, f, codec)| <= |reviews|
  {
    FilterIsSubsequence(reviews, Passes(f, codec));
    FilterLength(reviews, Passes(f, codec));
  }

  /** With nothing configured, every review is kept. */
  lemma NoFiltersKeepEverything(reviews: seq<Review>, codec: DateCodec)
    ensures Filtered(reviews, ReviewFilters(None, None, None), codec) == reviews
  {
    FilterAllPass(reviews, Passes(ReviewFilters(None, None, None), codec));
  }

  /** Fail-closed: once any rating bound is set, reviews without a rating are dropped. */
  lemma UnratedDroppedUnderBounds(reviews: seq<Review>, f: ReviewFilters, codec: DateCodec)
    requires f.minRating.Some? || f.maxRating.Some?
    ensures forall r :: r in Filtered(reviews, f, codec) ==> r.reviewerRating.Some?
  {
    forall r | r in Filtered(reviews, f, codec) ensures r.reviewerRating.Some? {
      FilterMembership(reviews, Passes(f, codec), r);
    }
  }

  /** Once `from_date` is set, every kept review has a date that parses to no earlier instant. */
  lemma KeptReviewsAreRecentEnough(reviews: seq<Review>, f: ReviewFilters, codec: DateCodec)
    requires f.fromDate.Some?
    ensures forall r :: r in Filtered(reviews, f, codec) ==>
      r.reviewDate.Some? && r.reviewDate.value != "" &&
      codec.parse(r.reviewDate.value).Some? && codec.parse(r.reviewDate.value).value >= f.fromDate.value
  {
    forall r | r in Filtered(reviews, f, codec)
      ensures r.reviewDate.Some? && r.reviewDate.value != "" &&
        codec.parse(r.reviewDate.value).Some? && codec.parse(r.reviewDate.value).value >= f.fromDate.value
    {
      FilterMembership(reviews, Passes(f, codec), r);
    }
  }

  /** Every kept review with a rating lies within the bounds that are set. */
  lemma KeptRatingsWithinBounds(reviews: seq<Review>, f: ReviewFilters, codec: DateCodec)
    ensures forall r :: r in Filtered(reviews, f, codec) && r.reviewerRating.Some? ==>
      (f.minRating.None? || f.minRating.value <= r.reviewerRating.value) &&
      (f.maxRating.None? || r.reviewerRating.value <= f.maxRating.value)
  {
    forall r | r in Filtered(reviews, f, codec) && r.reviewerRating.Some?
      ensures (f.minRating.None? || f.minRating.value <= r.reviewerRating.value) &&
        (f.maxRating.None? || r.reviewerRating.value <= f.maxRating.value)
    {
      FilterMembership(reviews, Passes(f, codec), r);
    }
  }
}
