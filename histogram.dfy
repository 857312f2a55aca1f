/**
 * The per-star histogram attached to every output record: how many of the
 * kept reviews carry each rating from 1 to 5.
 */
module RatingHistogram {

  import opened Seqs
  import opened Text
  import opened Records

  /** The key of a bucket: `f"{stars}stars"`. */
  function Bucket(stars: int): string
    requires 1 <= stars <= 5
  {
    [DigitChar(stars)] + "stars"
  }

  predicate IsBucket(key: string)
  {
    key == "1stars" || key == "2stars" || key == "3stars" || key == "4stars" || key == "5stars"
  }

  lemma BucketNames()
    ensures Bucket(1) == "1stars" && Bucket(2) == "2stars" && Bucket(3) == "3stars"
    ensures Bucket(4) == "4stars" && Bucket(5) == "5stars"
  {
    assert DigitChar(1) == '1' && DigitChar(2) == '2' && DigitChar(3) == '3';
    assert DigitChar(4) == '4' && DigitChar(5) == '5';
  }

  function HasRating(stars: int): Review -> bool
  {
    (r: Review) => r.reviewerRating == Some(stars)
  }

  /** The reviews that count at all: an integer rating from 1 to 5. */
  predicate RatedInRange(r: Review)
  {
    r.reviewerRating.Some? && 1 <= r.reviewerRating.value <= 5
  }

  function CountRated(reviews: seq<Review>, stars: int): nat
  {
    |Filter(reviews, HasRating(stars))|
  }

  /** The histogram: exactly the five buckets, each holding the number of reviews with that rating. */
  function Histogram(reviews: seq<Review>): (h: map<string, nat>)
    ensures forall key :: key in h <==> IsBucket(key)
    ensures forall stars :: 1 <= stars <= 5 ==> Bucket(stars) in h && h[Bucket(stars)] == CountRated(reviews, stars)
  {
    BucketNames();
    map[
      Bucket(1) := CountRated(reviews, 1),
      Bucket(2) := CountRated(reviews, 2),
      Bucket(3) := CountRated(reviews, 3),
      Bucket(4) := CountRated(reviews, 4),
      Bucket(5) := CountRated(reviews, 5)]
  }

  /** `counter.get(stars, 0)`. */
  function CountOf(counter: map<int, nat>, stars: int): nat
  {
    if stars in counter then counter[stars] else 0
  }

  lemma CountRatedStep(reviews: seq<Review>, i: nat, stars: int)
    requires i < |reviews|
    ensures CountRated(reviews[..i + 1], stars) ==
      CountRated(reviews[..i], stars) + (if reviews[i].reviewerRating == Some(stars) then 1 else 0)
  {
    assert reviews[..i + 1][..i] == reviews[..i];
  }

  /**
   * `_build_rating_histogram`: a counter over the ratings from 1 to 5, then
   * one entry per bucket, zero for a rating nobody gave.
   */
  method BuildRatingHistogram(reviews: seq<Review>) returns (h: map<string, nat>)
    ensures h == Histogram(reviews)
  {
    var counter: map<int, nat> := map[];
    for i := 0 to |reviews|
      invariant forall stars :: 1 <= stars <= 5 ==> CountOf(counter, stars) == CountRated(reviews[..i], stars)
    {
      forall stars | 1 <= stars <= 5 {
        CountRatedStep(reviews, i, stars);
      }
      var rating := reviews[i].reviewerRating;
      if rating.Some? && 1 <= rating.value <= 5 {
        counter := counter[rating.value := CountOf(counter, rating.value) + 1];
      }
    }
    assert reviews[..|reviews|] == reviews;
    h := map[
      Bucket(1) := CountOf(counter, 1),
      Bucket(2) := CountOf(counter, 2),
      Bucket(3) := CountOf(counter, 3),
      Bucket(4) := CountOf(counter, 4),
      Bucket(5) := CountOf(counter, 5)];
  }

  function BucketSum(h: map<string, nat>): nat
    requires "1stars" in h && "2stars" in h && "3stars" in h && "4stars" in h && "5stars" in h
  {
    h["1stars"] + h["2stars"] + h["3stars"] + h["4stars"] + h["5stars"]
  }

  /** The buckets add up to the number of reviews rated 1 to 5; unrated and out-of-range reviews are not counted. */
  lemma {:induction false} HistogramTotal(reviews: seq<Review>)
    ensures BucketSum(Histogram(reviews)) == |Filter(reviews, RatedInRange)|
  {
    BucketNames();
    if reviews != [] {
      var n := |reviews| - 1;
      HistogramTotal(reviews[..n]);
      assert reviews[..n + 1] == reviews;
      forall stars | 1 <= stars <= 5 {
        CountRatedStep(reviews, n, stars);
      }
    }
  }

  /** Counting is additive over concatenation, so the histogram does not depend on where the list is split. */
  lemma HistogramAppend(a: seq<Review>, b: seq<Review>, stars: int)
    requires 1 <= stars <= 5
    ensures Histogram(a + b)[Bucket(stars)] == Histogram(a)[Bucket(stars)] + Histogram(b)[Bucket(stars)]
  {
    FilterAppend(a, b, HasRating(stars));
  }

  /** A review without a rating from 1 to 5 leaves the histogram as it was. */
  lemma HistogramIgnoresUnrated(reviews: seq<Review>, r: Review)
    requires !RatedInRange(r)
    ensures Histogram(reviews + [r]) == Histogram(reviews)
  {
    forall stars | 1 <= stars <= 5
      ensures CountRated(reviews + [r], stars) == CountRated(reviews, stars)
    {
      CountRatedStep(reviews + [r], |reviews|, stars);
      assert (reviews + [r])[..|reviews|] == reviews;
      assert (reviews + [r])[..|reviews| + 1] == reviews + [r];
    }
  }
}
