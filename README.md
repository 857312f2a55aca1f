# Yelp business-page extractor, modelled in Dafny

This project models the parsing core of a Yelp reviews scraper. It takes a
business page that has already been fetched and parsed into a document tree.
From it the extractor builds:

- one business record (name, average rating, total-reviews text, price range,
  address, phone number);
- one review record per review block found on the page.

It then:

1. cuts the review list to `max_reviews` (200 by default);
2. keeps only the reviews that pass the rating and date filters built from the
   scraper settings;
3. counts the kept reviews into a per-star histogram;
4. returns one flat record per kept review, carrying the business fields and
   the histogram.

## Modules

| module | role |
|---|---|
| `Seqs` | shared sequence machinery |
| `Text` | Python string operations written out |
| `Patterns` | the regular expressions used, as predicates |
| `Dom` | the document tree and its preorder search |
| `Selectors` | matching rules shared by several extractors |
| `Dates` | the date parser, as a partial function |
| `Records` | the record types |
| `Filters` | `utils_filters.py` |
| `BusinessExtraction` | the business strategies |
| `ReviewExtraction` | the per-review strategies and `_parse_single_review` |
| `Containers` | locating and parsing the review blocks |
| `RatingHistogram` | the per-star histogram |
| `Pipeline` | `parse_business_page` after the fetch |

`Seqs` covers filter, map, first hit, in-order de-duplication, stable sort by
length, and skip-on-failure.

## How the source is represented

- **Collaborators become parameters.**
  - The free-text date parser is a `DateCodec`: a partial function `parse` from
    text to an instant on one ordered time line, plus the ISO rendering `iso`.
  - `json.loads` on an ld+json script is a `JsonDecoder`. It yields an
    `LdRecord` that keeps what the business strategies look at: whether
    `@type` is a text, another hashable value, or a list or object; whether
    `aggregateRating` is an object; and whether each address part is a text,
    falsy, or some other truthy value.
- **Functions and methods follow the source.**
  - Each extraction strategy is a function.
  - Where the source loops and appends, the model also has a method with that
    loop. Its `ensures` ties the result to the function.
- **Failures become `Result` values.**
  - An exception that ends a review's parse is a `Failure` value; `_parse_reviews`
    skips those blocks.
  - An exception that ends the page's parse is a `Failure` of the page. Three
    come from ld+json scripts in `_extract_average_rating` and
    `_extract_business_address`: an unhashable `@type` (a list or an object),
    a truthy `aggregateRating` that is not an object, and an address part
    that is truthy but not a text. The fourth is a `max_reviews` that `int()`
    rejects.

## Model

| member | source | states |
|---|---|---|
| `BusinessExtraction.BusinessName` | src/extractors/yelp_parser.py:135-144 | The first `h1`'s visible text wins when non-empty. Otherwise the result is the stripped `content` of the first `og:title` meta tag when that content is non-empty, and absent when it is not. |
| `BusinessExtraction.AverageRating` | src/extractors/yelp_parser.py:147-170 | The first star-rating label's number is used when `float()` accepts it. Otherwise the scripts are tried in order. The result is the rating of the first script that yields one, or the error of the first script that raises, with every earlier script skipped. It is absent exactly when every script is skipped. |
| `BusinessExtraction.RatingStepOutcomes` | src/extractors/yelp_parser.py:164-170 | For a business script: an `aggregateRating` that is not an object raises, a usable `ratingValue` is returned, and a missing one moves on to the next script. |
| `BusinessExtraction.UnhashableTypeRaises` | src/extractors/yelp_parser.py:164 | With no usable widget, a first script whose `@type` is a list or an object makes the extraction raise, whatever later scripts hold. |
| `BusinessExtraction.LdBusiness` | src/extractors/yelp_parser.py:164 | A script raises exactly when its `@type` is unhashable. It counts as a business exactly when its `@type` is "Restaurant" or "LocalBusiness". |
| `BusinessExtraction.WidgetRatingIsUnbounded` | src/extractors/yelp_parser.py:149-155 | A label "n star rating" yields n for every n: the average rating has no range check. |
| `BusinessExtraction.TotalReviewsText` | src/extractors/yelp_parser.py:173-184 | Absent exactly when no "review(s)" string holds a digit. Otherwise it is the shortest such stripped string, the earliest on a tie. |
| `BusinessExtraction.ExtractTotalReviewsText` | src/extractors/yelp_parser.py:173-184 | The collect-then-sort loop returns the value `TotalReviewsText` specifies. |
| `BusinessExtraction.CollectCountCandidates` | src/extractors/yelp_parser.py:175-179 | The loop collects, in document order, exactly the stripped strings that contain a digit. |
| `BusinessExtraction.PriceMarkupStrips` | src/extractors/yelp_parser.py:189-190 | A string matching `^\$+$`, even one with a trailing newline, strips to dollar signs only. |
| `BusinessExtraction.PriceRange` | src/extractors/yelp_parser.py:187-193 | The result is the stripped text of the first price string whose stripped length is 1 to 4, and no earlier price string has such a length. It is absent exactly when none has. The price is all dollar signs. |
| `BusinessExtraction.BusinessAddress` | src/extractors/yelp_parser.py:196-221 | The `address` tag's spaced text wins when non-empty. Otherwise the scripts are tried in order. The result is the joined address parts of the first script whose parts join to a non-empty text, or the error of the first script that raises, with every earlier script skipped. It is absent exactly when every script is skipped, and a present address is never empty. |
| `BusinessExtraction.ScriptsAddress` | src/extractors/yelp_parser.py:203-221 | The ld+json loop of the address extraction: the joined parts of the first script whose parts join to a non-empty text, or the error of the first script that raises, with every earlier script skipped. It is absent exactly when every script is skipped. |
| `BusinessExtraction.AddressJoinsParts` | src/extractors/yelp_parser.py:212-219 | Four non-empty parts are joined as street, locality, region and postal code, separated by single spaces. |
| `BusinessExtraction.AddressSkipsMissingParts` | src/extractors/yelp_parser.py:212-219 | Missing or empty parts are skipped with no doubled space. |
| `BusinessExtraction.NumericPostalCodeRaises` | src/extractors/yelp_parser.py:218 | A truthy postal code that is not a text, such as a number, makes the join raise. |
| `BusinessExtraction.AddressHitIsJoined` | src/extractors/yelp_parser.py:208-220 | The text a script yields in the address loop is the join of that script's own address parts. |
| `BusinessExtraction.ContactNumber` | src/extractors/yelp_parser.py:224-230 | The first link whose `href` starts with "tel:" decides. The result is that link's visible text, or, when the text is empty, its `href` with every "tel:" removed. It is absent exactly when no `href` starts with "tel:". |
| `BusinessExtraction.PhoneFallbackRemovesEveryMarker` | src/extractors/yelp_parser.py:229 | For any two texts without a 't', "tel:a" followed by "tel:b" becomes "ab": `replace` removes every "tel:", not only the leading one. |
| `BusinessExtraction.BusinessInfoOf` | src/extractors/yelp_parser.py:109-133 | Fails exactly when the rating or the address extraction raises, and the rating's error is the one reported. Otherwise each field is its own strategy's value and the URL is kept as given. |
| `BusinessExtraction.ParseBusinessInfo` | src/extractors/yelp_parser.py:109-133 | The method returns the value `BusinessInfoOf` specifies. The total-reviews text is one of the candidates. |
| `ReviewExtraction.ReviewerName` | src/extractors/yelp_parser.py:315-326 | A name is non-empty. A profile link with text wins; otherwise the name comes from the first `strong`. |
| `ReviewExtraction.AvatarUrl` | src/extractors/yelp_parser.py:329-333 | A present URL is the non-empty `src` of an `img` with no `img` before it in document order. When absent, every `img` with a `src` has an earlier `img`, so later images are never looked at. |
| `ReviewExtraction.DetailsOf` | src/extractors/yelp_parser.py:342-359 | Exactly the three statistic keys. Each holds the number before the first "review(s)", "friend(s)" or "photo(s)" respectively, or 0. |
| `ReviewExtraction.ExtractReviewerDetails` | src/extractors/yelp_parser.py:336-362 | The statistics are those of the container's text joined with single spaces. |
| `ReviewExtraction.ReadReviewerDetails` | src/extractors/yelp_parser.py:342-362 | The overwrite-from-zero loop yields the count of the first "n review(s)" / "n friend(s)" / "n photo(s)", and 0 for a pattern that is missing. |
| `ReviewExtraction.NoDigitsNoDetails` | src/extractors/yelp_parser.py:354-360 | A text without digits leaves every statistic at 0. |
| `ReviewExtraction.DetailsReadBack` | src/extractors/yelp_parser.py:348-352 | "n Review(s)", "n Friend(s)" or "n Photo(s)", in any case, reads back as n under its own statistic. |
| `ReviewExtraction.ReviewerLocation` | src/extractors/yelp_parser.py:365-376 | Absent exactly when no span text has a comma and a letter. Otherwise it is the shortest such text, the earliest on a tie. |
| `ReviewExtraction.ExtractReviewerLocation` | src/extractors/yelp_parser.py:365-376 | The loop and the sort return the value `ReviewerLocation` specifies. |
| `ReviewExtraction.ReviewerRating` | src/extractors/yelp_parser.py:379-389 | Present exactly when a star-rating widget exists and its label has a digit. The value is the first digit run of the first widget's label, read as a number, so it is non-negative. |
| `ReviewExtraction.RatingLabelReadsBack` | src/extractors/yelp_parser.py:383-386 | "n star rating" gives n for every n: there is no 1..5 check. |
| `ReviewExtraction.ReviewDateRaw` | src/extractors/yelp_parser.py:392-405 | When some `time` has text, the result is the text of the first such `time`. Otherwise, when some span mentions a month or a year from 2000 to 2099, it is the text of the first such span. Otherwise it is absent. A raw date is never empty. |
| `ReviewExtraction.YearOnlySpanDatesReviewsOnly` | src/extractors/yelp_parser.py:398-404 | A span showing only a year dates a review but not a response. The response fallback (lines 492-497) accepts month names only. |
| `ReviewExtraction.IsoDate` | src/extractors/yelp_parser.py:281-286 | It fails exactly on a present, non-empty date that the parser rejects, and the failure carries that text. Otherwise it gives the ISO rendering of the parsed instant. It is absent exactly when there is no raw date. |
| `ReviewExtraction.StoredDateIsStable` | src/extractors/yelp_parser.py:281-286 | When the parser reads its own ISO output, storing a stored date again gives the same text. |
| `ReviewExtraction.ReviewText` | src/extractors/yelp_parser.py:408-416 | Absent exactly when no paragraph is kept. Otherwise it is the kept paragraph texts joined by single spaces, and its word count is the total of theirs, so more than three. |
| `ReviewExtraction.ParagraphTextsAreLongParagraphs` | src/extractors/yelp_parser.py:408-412 | The kept paragraph texts are the `p` texts in document order, and a `p` text is kept exactly when it has more than three words. |
| `ReviewExtraction.ReviewTextAbsentIffNoLongParagraph` | src/extractors/yelp_parser.py:410-416 | Absent exactly when no paragraph has more than three words. |
| `ReviewExtraction.ExtractReviewText` | src/extractors/yelp_parser.py:408-416 | The paragraph loop returns the value `ReviewText` specifies. |
| `ReviewExtraction.MediaUrlsShape` | src/extractors/yelp_parser.py:419-430 | No duplicates. It holds exactly the yelp image sources and the video sources. Images come first, in first-seen order; after them come only video sources that are not also images. |
| `ReviewExtraction.MediaUrlsOrder` | src/extractors/yelp_parser.py:420-430 | Every image URL contains "yelp". The list follows first occurrence: each URL sits in the order it was first met. |
| `ReviewExtraction.ExtractReviewMediaUrls` | src/extractors/yelp_parser.py:419-430 | The two append-if-new loops return the value `MediaUrls` specifies. |
| `ReviewExtraction.AppendVideoSources` | src/extractors/yelp_parser.py:425-429 | After each video, the list is the de-duplicated concatenation of everything seen so far. |
| `ReviewExtraction.AppendNewSources` | src/extractors/yelp_parser.py:421-424 | Appending each new kept `src` extends the de-duplication of what has been seen. |
| `ReviewExtraction.ReactionCounts` | src/extractors/yelp_parser.py:433-459 | Each count is the number before the first "Helpful", "Thanks", "Love this" or "Oh no" in the container's text, or 0. A text without digits has all four counts 0. |
| `ReviewExtraction.ReactionReadsBack` | src/extractors/yelp_parser.py:437-452 | "n Helpful" (or another reaction word, in any case) reads back as n. |
| `ReviewExtraction.ResponseDateRaw` | src/extractors/yelp_parser.py:484-498 | When some `time` in the block has text, the result is the text of the first such `time`. Otherwise, when some span names a month, it is the text of the first such span. Otherwise it is absent. A year alone does not count here. |
| `ReviewExtraction.BusinessResponse` | src/extractors/yelp_parser.py:462-513 | With no owner block, all three parts are None. A failure implies an owner block whose date does not parse. Otherwise the author is the first `strong` text, the content is the kept paragraphs, and the date is the ISO date. |
| `ReviewExtraction.ExtractBusinessResponse` | src/extractors/yelp_parser.py:462-513 | The method returns the value `BusinessResponse` specifies. |
| `ReviewExtraction.ReviewOf` | src/extractors/yelp_parser.py:275-312 | A review fails exactly when its date or its response date fails to parse, and a review-date failure is the one reported. Otherwise every field is the value of its own strategy: name, avatar, details, location, rating, stored date, text, media, the four reactions and the three response parts. |
| `ReviewExtraction.ParseSingleReview` | src/extractors/yelp_parser.py:275-312 | The method returns the value `ReviewOf` specifies. |
| `Containers.ReviewContainers` | src/extractors/yelp_parser.py:252-273 | The review-id strategy wins when it finds anything, then the list-item one. When neither finds anything, the result is every section holding a star rating. Containers are page nodes in document order, and each matches a rule. The result is empty exactly when no node matches any rule. |
| `Containers.ParseReviews` | src/extractors/yelp_parser.py:236-249 | The result is the successful parses of the located blocks, in order. |
| `Containers.ParseEach` | src/extractors/yelp_parser.py:240-246 | The loop skips each block whose parse fails. |
| `Containers.ParsedReviewsAppend` | src/extractors/yelp_parser.py:240-246 | Parsing is block by block: the result for `a + b` is the result for `a` followed by the result for `b`. |
| `Containers.ParsedReviewsCount` | src/extractors/yelp_parser.py:240-246 | There are never more reviews than blocks, and as many exactly when every block parses. |
| `Containers.ParsedReviewsMembership` | src/extractors/yelp_parser.py:240-246 | A review is in the result exactly when some block parses to it. |
| `RatingHistogram.Histogram` | src/extractors/yelp_parser.py:516-522 | The keys are exactly "1stars".."5stars", and each holds the number of reviews with that rating. |
| `RatingHistogram.BuildRatingHistogram` | src/extractors/yelp_parser.py:516-522 | The counter loop returns the histogram `Histogram` specifies. |
| `RatingHistogram.HistogramTotal` | src/extractors/yelp_parser.py:518-522 | The buckets add up to the number of reviews rated 1 to 5. |
| `RatingHistogram.HistogramAppend` | src/extractors/yelp_parser.py:518-521 | The counts are additive over concatenation. |
| `RatingHistogram.HistogramIgnoresUnrated` | src/extractors/yelp_parser.py:520 | A review without a rating from 1 to 5 leaves the histogram unchanged. |
| `Dates.ParseReviewDate` | src/extractors/utils_filters.py:49-59 | Succeeds exactly when the parser accepts the text. A failure carries the text. |
| `Dates.EnsureDateTime` | src/extractors/utils_filters.py:120-125 | A datetime passes unchanged, a string is parsed, and anything else is a type error. |
| `Dates.EnsureDateTimeIdempotent` | src/extractors/utils_filters.py:120-122 | Normalising an already normalised value changes nothing. |
| `Filters.RatingBound` | src/extractors/utils_filters.py:25-37 | Unset stays unset. A bound is set exactly when `int()` accepts the value. |
| `Filters.RatingBoundReadsIntegers` | src/extractors/utils_filters.py:25-30 | An integer, or its padded decimal text, is taken at its value. A float is cut to its integer part. |
| `Filters.RatingBoundDropsGarbage` | src/extractors/utils_filters.py:28-30 | A text that `int()` rejects leaves the bound unset instead of raising. |
| `Filters.FromDate` | src/extractors/utils_filters.py:39-45 | A falsy value gives no date. A set date is the parse of `str(value)`. An accepted parse always sets it. |
| `Filters.FromSettings` | src/extractors/utils_filters.py:17-47 | Each field comes from its own key, and building the filter never fails. |
| `Filters.PassesRatingFilter` | src/extractors/utils_filters.py:89-101 | A rated review passes exactly when its rating lies within every bound that is set. An unrated one passes exactly when no bound is set. Bounds with min above max keep nothing. |
| `Filters.PassesDateFilter` | src/extractors/utils_filters.py:103-118 | With no `from_date`, every review passes. With one, a review passes exactly when its date is non-empty and parses to an instant no earlier than `from_date`. |
| `Filters.DateRuleMonotone` | src/extractors/utils_filters.py:103-118 | A review kept from some `from_date` on is kept from any earlier one. |
| `Filters.ApplyFilters` | src/extractors/utils_filters.py:62-87 | An order-preserving subsequence that keeps a review exactly when both rules pass. |
| `Filters.FilteredIdempotent` | src/extractors/utils_filters.py:73-78 | Filtering twice equals filtering once. |
| `Filters.FilteredIsSubsequence` | src/extractors/utils_filters.py:73-78 | The result is a subsequence of the input and no longer than it. |
| `Filters.NoFiltersKeepEverything` | src/extractors/utils_filters.py:89-105 | With no bounds and no date, every review is kept. |
| `Filters.UnratedDroppedUnderBounds` | src/extractors/utils_filters.py:91-95 | Once any bound is set, reviews without a rating are dropped. |
| `Filters.KeptRatingsWithinBounds` | src/extractors/utils_filters.py:97-101 | A kept rating lies within every bound that is set. |
| `Filters.KeptReviewsAreRecentEnough` | src/extractors/utils_filters.py:103-118 | With `from_date` set, a kept review has a non-empty date that parses to an instant no earlier than `from_date`. |
| `Pipeline.MaxReviews` | src/extractors/yelp_parser.py:60 | A missing key gives 200. Otherwise the result is `int()` of the value, and a value it rejects is a page failure carrying that value. |
| `Pipeline.MaxReviewsReadsText` | src/extractors/yelp_parser.py:60 | A limit written as padded decimal text is read at its value. |
| `Pipeline.MaxReviewsRejectsNonNumbers` | src/extractors/yelp_parser.py:60 | An explicit null, a list or an object fails the page. |
| `Pipeline.Truncate` | src/extractors/yelp_parser.py:61 | Python's `[:n]` is a prefix: min(n, len) long for n >= 0, and len + n long (at least 0) for negative n. |
| `Pipeline.TruncateWithinLimit` | src/extractors/yelp_parser.py:61 | With a non-negative limit, a short list is kept whole and cutting is idempotent. |
| `Pipeline.RecordsFor` | src/extractors/yelp_parser.py:68-85 | One record per review, in order, each with the same business fields and histogram. |
| `Pipeline.BuildRecords` | src/extractors/yelp_parser.py:68-85 | The records loop returns the records `RecordsFor` specifies. |
| `Pipeline.ParseBusinessPage` | src/extractors/yelp_parser.py:49-87 | Business info, reviews, cut, filter, histogram and records, in that order, give the value `PageRecords` specifies. |
| `Pipeline.PageFailures` | src/extractors/yelp_parser.py:57-66 | After the fetch, the page fails exactly when a business strategy raises on an ld+json script or `max_reviews` is not an integer. The business error comes first. |
| `Pipeline.UnhashableTypeFailsPage` | src/extractors/yelp_parser.py:57-60 | With no usable star widget, a first ld+json script whose `@type` is a list or an object fails the whole page. |
| `Pipeline.NumericPostalCodeFailsPage` | src/extractors/yelp_parser.py:57-60 | With no `address` tag text, a first business script with a numeric postal code fails the whole page, even when the widget gave the rating. |
| `Pipeline.RecordsShareBusinessAndHistogram` | src/extractors/yelp_parser.py:60-85 | Every record carries the page's business fields and one histogram. The records' reviews are the filtered first `max_reviews` parsed reviews, and the histogram is the one of exactly those reviews. |
| `Pipeline.RecordsAreFilteredPrefix` | src/extractors/yelp_parser.py:60-64 | The records' reviews are the first `max_reviews` parsed reviews filtered in order. They are a subsequence of that prefix and number at most the limit. A review of the prefix has a record exactly when it passes both rules. |
| `Pipeline.CutBeforeFilter` | src/extractors/yelp_parser.py:60-64 | The cut happens before filtering: if none of the first `max_reviews` reviews passes, there are no records, whatever follows. The page then fails only when the business record does. |
| `Pipeline.NoContainersNoRecords` | src/extractors/yelp_parser.py:257-273 | A page where no node matches a locating rule gives no records. It fails only when the business record does. |
| `Pipeline.StoredDateMeetsDateRule` | src/extractors/utils_filters.py:103-118 | When the parser reads its ISO output back, a non-empty page date that parses to d, once stored in ISO form, passes the date rule exactly when `from_date` is unset or d is at least `from_date`. A review with no date passes exactly when `from_date` is unset. |
| `Pipeline.ParsedDateMeetsDateRule` | src/extractors/utils_filters.py:103-118 | When the parser reads its ISO output back, a review whose page date parses to d passes the date rule exactly when `from_date` is unset or d is at least `from_date`. An undated review passes exactly when `from_date` is unset. |

## Left out

- **Fetching and the runner.** The HTTP fetch (`_fetch_html`), the HTML parser itself, the runner and the exporters are not part of this model; a page enters as an already parsed document tree.
- **Logging.** Logging calls have no effect on results and are left out.
- **Date parsing.** The date parser's own behaviour is abstract: which texts it accepts and which instants they mean. The same goes for the mixing of timezone-aware and naive datetimes, whose comparison can raise in Python. An instant is an integer on one ordered time line.
- **JSON decoding.** `json.loads` is the `JsonDecoder` parameter. What it decodes is kept only as far as the business strategies look at it:
  - `ratingValue` is kept as the text `float()` accepts, not as a float;
  - a value in `@type` other than a text, a list or an object is one "other hashable" case;
  - an address part is a text, a falsy value or another truthy value.
- **Float handling.** Floating point is not modelled:
  - the average rating stays the numeric text it was read from;
  - the `.1f` formatting of the output record's `average_rating` is not modelled;
  - `float()` is approximated as "digits and at most one dot";
  - a float setting is its integer part toward zero, which is what `int()` gives for `max_reviews`, `min_rating` and `max_rating`. Its truthiness and its `str()` are kept beside it. NaN and infinite floats are not represented, though `int()` raises on them.
- **Regular expressions and CSS selectors** are written as predicates over ASCII:
  - `\d`, `\w`, `\s`, `isalpha` and `re.I` case folding are not modelled for non-ASCII characters;
  - the class match `li[class*='review']` is a substring test on the raw attribute.
- **The document tree.** It has elements and text strings only: comments, CDATA and the strings inside `script` and `style` are not told apart.
- **`int()` limits.** The length limit on integer strings (`sys.set_int_max_str_digits`) is not modelled, so a huge digit run never raises `ValueError`. That limit is the only failure the source's `except ValueError` around `int()` can catch.
- **Other exceptions in `_parse_single_review`.** Only date-parsing failures are modelled as the exceptions that make `_parse_reviews` skip a block.
- **Mutable record dictionaries.** The business fields and the review fields of an output record are kept as two parts rather than one merged dictionary. Their key sets do not overlap, so `record.update(review)` loses nothing.
