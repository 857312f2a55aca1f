/**
 * Finding the review blocks of a page and parsing each of them: three
 * locating strategies tried in turn, then one record per block, a block
 * whose parse fails being skipped.
 */
module Containers {

  import opened Seqs
  import opened Text
  import opened Dom
  import opened Selectors
  import opened Dates
  import opened Records
  import opened ReviewExtraction

  // ---------------------------------------------------------------------
  // Locating the review blocks
  // ---------------------------------------------------------------------

  /** `select("[data-review-id]")`. */
  predicate HasReviewId(x: Node)
  {
    HasAttr(x, "data-review-id")
  }

  /** `select("li[class*='review']")`: a list item whose class attribute contains "review". */
  predicate IsReviewListItem(x: Node)
  {
    x.Element? && x.tag == "li" && HasAttr(x, "class") && Contains(x.attrs["class"], "review")
  }

  /** A `section` with a star-rating label somewhere below it. */
  predicate IsRatedSection(x: Node)
  {
    x.Element? && x.tag == "section" && Find(x, HasStarLabel).Some?
  }

  predicate MatchesAnyStrategy(x: Node)
  {
    HasReviewId(x) || IsReviewListItem(x) || IsRatedSection(x)
  }

  /** A strategy that finds something points at a node matching one of the rules. */
  lemma MatchWitness(doc: Node, p: Node -> bool)
    requires FindAll(doc, p) != []
    requires forall x :: p(x) ==> MatchesAnyStrategy(x)
    ensures exists i :: 0 <= i < |Descendants(doc)| && MatchesAnyStrategy(Descendants(doc)[i])
  {
    var all := Descendants(doc);
    var x := FindAll(doc, p)[0];
    FilterMembership(all, p, x);
    var i :| 0 <= i < |all| && all[i] == x;
    assert MatchesAnyStrategy(all[i]);
  }

  /**
   * `_locate_review_containers`: the nodes carrying a review id; when there
   * are none, the list items with "review" in their class; when there are
   * none either, the sections holding a star rating. Every container comes
   * from the page, in document order, and the result is empty, not an
   * error, exactly when no node matches any of the three rules.
   */
  function ReviewContainers(doc: Node): (cs: seq<Node>)
    ensures FindAll(doc, HasReviewId) != [] ==> cs == FindAll(doc, HasReviewId)
    ensures FindAll(doc, HasReviewId) == [] && FindAll(doc, IsReviewListItem) != [] ==>
      cs == FindAll(doc, IsReviewListItem)
    ensures FindAll(doc, HasReviewId) == [] && FindAll(doc, IsReviewListItem) == [] ==>
      cs == FindAll(doc, IsRatedSection)
    ensures IsSubsequence(cs, Descendants(doc))
    ensures forall i :: 0 <= i < |cs| ==> MatchesAnyStrategy(cs[i])
    ensures cs == [] <==> forall i :: 0 <= i < |Descendants(doc)| ==> !MatchesAnyStrategy(Descendants(doc)[i])
  {
    var all := Descendants(doc);
    FilterEmpty(all, HasReviewId);
    FilterEmpty(all, IsReviewListItem);
    FilterEmpty(all, IsRatedSection);
    FilterIsSubsequence(all, HasReviewId);
    FilterIsSubsequence(all, IsReviewListItem);
    FilterIsSubsequence(all, IsRatedSection);
    FilterElementsPass(all, HasReviewId);
    FilterElementsPass(all, IsReviewListItem);
    FilterElementsPass(all, IsRatedSection);
    var byId := FindAll(doc, HasReviewId);
    if byId != [] then
      MatchWitness(doc, HasReviewId);
      byId
    else
      var byClass := FindAll(doc, IsReviewListItem);
      if byClass != [] then
        MatchWitness(doc, IsReviewListItem);
        byClass
      else FindAll(doc, IsRatedSection)
  }

  // ---------------------------------------------------------------------
  // Parsing every block
  // ---------------------------------------------------------------------

  /** `_parse_single_review` on one block, its failure standing for the exception it raises. */
  function ParseWith(codec: DateCodec): Node -> Result<Review, DateError>
  {
    (c: Node) => ReviewOf(c, codec)
  }

  /** What `_parse_reviews` returns for the given blocks: the records of those that parse, in order. */
  function ParsedReviews(cs: seq<Node>, codec: DateCodec): seq<Review>
  {
    Successes(cs, ParseWith(codec))
  }

  /**
   * `_parse_reviews`: parses the located blocks one by one, skipping a block
   * whose parse raises.
   */
  method ParseReviews(doc: Node, codec: DateCodec) returns (reviews: seq<Review>)
    ensures reviews == ParsedReviews(ReviewContainers(doc), codec)
  {
    var containers := ReviewContainers(doc);
    reviews := ParseEach(containers, codec);
  }

  /** The loop of `_parse_reviews` over the blocks. */
  method ParseEach(containers: seq<Node>, codec: DateCodec) returns (reviews: seq<Review>)
    ensures reviews == ParsedReviews(containers, codec)
  {
    reviews := [];
    for i := 0 to |containers|
      invariant reviews == ParsedReviews(containers[..i], codec)
    {
      SuccessesStep(containers, i, ParseWith(codec));
      var review := ParseSingleReview(containers[i], codec);
      if review.Failure? {
        continue;
      }
      reviews := reviews + [review.value];
    }
    assert containers[..|containers|] == containers;
  }

  /** Parsing two runs of blocks parses each run on its own: no block affects another, and order is kept. */
  lemma ParsedReviewsAppend(a: seq<Node>, b: seq<Node>, codec: DateCodec)
    ensures ParsedReviews(a + b, codec) == ParsedReviews(a, codec) + ParsedReviews(b, codec)
  {
    SuccessesAppend(a, b, ParseWith(codec));
  }

  /** There are never more reviews than blocks, and as many exactly when every block parses. */
  lemma ParsedReviewsCount(cs: seq<Node>, codec: DateCodec)
    ensures |ParsedReviews(cs, codec)| <= |cs|
    ensures |ParsedReviews(cs, codec)| == |cs| <==> forall i :: 0 <= i < |cs| ==> ReviewOf(cs[i], codec).Ok?
  {
    SuccessesCount(cs, ParseWith(codec));
  }

  /** A review is in the result exactly when some block parses to it. */
  lemma ParsedReviewsMembership(cs: seq<Node>, codec: DateCodec, r: Review)
    ensures r in ParsedReviews(cs, codec) <==> exists i :: 0 <= i < |cs| && ReviewOf(cs[i], codec) == Ok(r)
  {
    SuccessesMembership(cs, ParseWith(codec), r);
  }
}
