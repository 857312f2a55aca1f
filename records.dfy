/**
 * The records the extractor produces: one business record per page, one
 * review record per review container, and the flat output record that joins
 * them. Every optional field is independently absent or present; counters
 * default to 0.
 */
module Records {

  import opened Seqs

  /** `BusinessInfo`; the average rating is kept as the numeric text it was read from. */
  datatype BusinessInfo = BusinessInfo(
    businessUrl: string,
    businessName: Option<string>,
    averageRating: Option<string>,
    totalReviewsText: Option<string>,
    priceRange: Option<string>,
    businessAddress: Option<string>,
    contactNumber: Option<string>)

  /** The dictionary `_parse_single_review` returns, one field per key. */
  datatype Review = Review(
    reviewerName: Option<string>,
    avatarUrl: Option<string>,
    reviewerDetails: map<string, nat>,
    reviewerLocation: Option<string>,
    reviewerRating: Option<int>,
    reviewDate: Option<string>,
    reviewText: Option<string>,
    mediaUrls: seq<string>,
    helpfulCount: nat,
    thanksCount: nat,
    loveThisCount: nat,
    ohNoCount: nat,
    responseAuthorName: Option<string>,
    responseDate: Option<string>,
    responseContent: Option<string>)

  /**
   * One output record: the business fields and the rating histogram,
   * updated with one review's fields (the key sets do not overlap).
   */
  datatype OutputRecord = OutputRecord(
    business: BusinessInfo,
    reviewCountsByRating: map<string, nat>,
    review: Review)
}
