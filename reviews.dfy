/**
 * One review record from one review container: a strategy per field, and the
 * assembly of the record, which fails when a date the container shows cannot
 * be parsed.
 */
module ReviewExtraction {

  import opened Seqs
  import opened Text
  import opened Patterns
  import opened Dom
  import opened Selectors
  import opened Dates
  import opened Records

  // ---------------------------------------------------------------------
  // Reviewer
  // ---------------------------------------------------------------------

  /** The name a profile link gives: its visible text, when its target is a user-details page. */
  function ProfileLinkName(x: Node): Option<string>
  {
    if Contains(Attr(x, "href"), "/user_details?") then TextIfAny(x) else None
  }

  /**
   * `_extract_reviewer_name`: the first profile link with visible text, else
   * the text of the first `strong` when it has any.
   */
  function ReviewerName(c: Node): (r: Option<string>)
    ensures r.Some? ==> r.value != ""
    ensures FirstSome(FindAll(c, IsLink), ProfileLinkName).Some? ==> r == FirstSome(FindAll(c, IsLink), ProfileLinkName)
    ensures FirstSome(FindAll(c, IsLink), ProfileLinkName).None? ==> r == StrongText(c)
  {
    OrElse(FirstSome(FindAll(c, IsLink), ProfileLinkName), StrongText(c))
  }

  /** `_extract_avatar_url`: the `src` of the first image, when it is non-empty; later images are not looked at. */
  function AvatarUrl(c: Node): (r: Option<string>)
    ensures r.Some? ==>
      var nodes := Descendants(c);
      exists k :: 0 <= k < |nodes| && nodes[k].Element? && nodes[k].tag == "img" && r.value == Attr(nodes[k], "src") &&
        r.value != "" && forall i :: 0 <= i < k ==> !(nodes[i].Element? && nodes[i].tag == "img")
    ensures r.None? ==>
      var nodes := Descendants(c);
      forall k :: 0 <= k < |nodes| && nodes[k].Element? && nodes[k].tag == "img" && Attr(nodes[k], "src") != "" ==>
        exists i :: 0 <= i < k && nodes[i].Element? && nodes[i].tag == "img"
  {
    var img := Find(c, TagIs("img"));
    if img.Some? && Attr(img.value, "src") != "" then
      AvatarIsFirstImage(c, img.value);
      Some(Attr(img.value, "src"))
    else
      AvatarAbsent(c);
      None
  }

  /** The first image found is the image earliest in document order. */
  lemma AvatarIsFirstImage(c: Node, img: Node)
    requires Find(c, TagIs("img")) == Some(img)
    ensures img.Element? && img.tag == "img"
    ensures exists k :: (0 <= k < |Descendants(c)| && Descendants(c)[k] == img &&
      forall i :: 0 <= i < k ==> !(Descendants(c)[i].Element? && Descendants(c)[i].tag == "img"))
  {
    var nodes := Descendants(c);
    FirstIsEarliest(nodes, TagIs("img"));
    var k :| 0 <= k < |nodes| && nodes[k] == img && TagIs("img")(nodes[k]) &&
      forall i :: 0 <= i < k ==> !TagIs("img")(nodes[i]);
    assert forall i :: 0 <= i < k ==> !(nodes[i].Element? && nodes[i].tag == "img") by {
      forall i | 0 <= i < k ensures !(nodes[i].Element? && nodes[i].tag == "img") {
        assert !TagIs("img")(nodes[i]);
      }
    }
    assert TagIs("img")(img);
  }

  /** Without an avatar, every image with a `src` comes after an earlier image (the first one, which has none). */
  lemma AvatarAbsent(c: Node)
    requires Find(c, TagIs("img")).None? || Attr(Find(c, TagIs("img")).value, "src") == ""
    ensures var nodes := Descendants(c);
      forall k :: 0 <= k < |nodes| && nodes[k].Element? && nodes[k].tag == "img" && Attr(nodes[k], "src") != "" ==>
        exists i :: 0 <= i < k && nodes[i].Element? && nodes[i].tag == "img"
  {
    var nodes := Descendants(c);
    FirstIsEarliest(nodes, TagIs("img"));
    forall k | 0 <= k < |nodes| && nodes[k].Element? && nodes[k].tag == "img" && Attr(nodes[k], "src") != ""
      ensures exists i :: 0 <= i < k && nodes[i].Element? && nodes[i].tag == "img"
    {
      assert TagIs("img")(nodes[k]);
      var j :| 0 <= j < |nodes| && nodes[j] == Find(c, TagIs("img")).value && TagIs("img")(nodes[j]) &&
        forall i :: 0 <= i < j ==> !TagIs("img")(nodes[i]);
      assert j < k;
    }
  }

  const DetailKeys: seq<string> := ["total_reviews", "total_friends", "business_photos_uploaded"]
  const DetailWords: seq<string> := ["review", "friend", "photo"]

  /** The reviewer statistics read from a text: each count, or 0 when its pattern does not occur. */
  function DetailsOf(text: string): (stats: map<string, nat>)
    ensures stats.Keys == {"total_reviews", "total_friends", "business_photos_uploaded"}
    ensures stats["total_reviews"] == CountBefore(text, "review", true)
    ensures stats["total_friends"] == CountBefore(text, "friend", true)
    ensures stats["business_photos_uploaded"] == CountBefore(text, "photo", true)
  {
    DetailKeysDistinct();
    map[
      "total_reviews" := CountBefore(text, "review", true),
      "total_friends" := CountBefore(text, "friend", true),
      "business_photos_uploaded" := CountBefore(text, "photo", true)]
  }

  /** What `_extract_reviewer_details` returns for a container. */
  function ReviewerDetails(c: Node): map<string, nat>
  {
    DetailsOf(SpacedText(c))
  }

  /**
   * `_extract_reviewer_details`: starts every statistic at 0 and overwrites
   * it with the number of the first "<n> review(s)", "<n> friend(s)" or
   * "<n> photo(s)" in the container's text.
   */
  method ExtractReviewerDetails(c: Node) returns (stats: map<string, nat>)
    ensures stats == ReviewerDetails(c)
  {
    stats := ReadReviewerDetails(SpacedText(c));
  }

  /** The loop of `_extract_reviewer_details` over the container's spaced text. */
  method ReadReviewerDetails(text: string) returns (stats: map<string, nat>)
    ensures stats == DetailsOf(text)
  {
    stats := map["total_reviews" := 0, "total_friends" := 0, "business_photos_uploaded" := 0];
    for i := 0 to |DetailKeys|
      invariant stats == DetailsAfter(text, i)
    {
      var found := SearchCount(text, DetailWords[i], true, 0);
      DetailStep(text, i);
      if found.Some? {
        stats := stats[DetailKeys[i] := found.value];
      }
    }
    DetailsComplete(text);
  }

  /** The statistics once the first `i` words have been searched for. */
  function DetailsAfter(text: string, i: nat): map<string, nat>
    requires i <= |DetailKeys|
  {
    if i == 0 then map["total_reviews" := 0, "total_friends" := 0, "business_photos_uploaded" := 0]
    else DetailsAfter(text, i - 1)[DetailKeys[i - 1] := CountBefore(text, DetailWords[i - 1], true)]
  }

  /** A statistic still at its default is left alone when its word has no count. */
  lemma DetailStep(text: string, i: nat)
    requires i < |DetailKeys|
    ensures SearchCount(text, DetailWords[i], true, 0).None? ==> DetailsAfter(text, i + 1) == DetailsAfter(text, i)
  {
    DetailKeysDistinct();
    assert DetailsAfter(text, 1) == DetailsAfter(text, 0)[DetailKeys[0] := CountBefore(text, DetailWords[0], true)];
    assert DetailsAfter(text, 2) == DetailsAfter(text, 1)[DetailKeys[1] := CountBefore(text, DetailWords[1], true)];
    assert DetailsAfter(text, 3) == DetailsAfter(text, 2)[DetailKeys[2] := CountBefore(text, DetailWords[2], true)];
    var m := DetailsAfter(text, i);
    if SearchCount(text, DetailWords[i], true, 0).None? {
      assert DetailKeys[i] in m && m[DetailKeys[i]] == 0;
      assert DetailsAfter(text, i + 1) == m[DetailKeys[i] := 0];
    }
  }

  /** After the three words the statistics are those `DetailsOf` gives. */
  lemma DetailsComplete(text: string)
    ensures DetailsAfter(text, |DetailKeys|) == DetailsOf(text)
  {
    DetailKeysDistinct();
    assert DetailsAfter(text, 1) == DetailsAfter(text, 0)[DetailKeys[0] := CountBefore(text, DetailWords[0], true)];
    assert DetailsAfter(text, 2) == DetailsAfter(text, 1)[DetailKeys[1] := CountBefore(text, DetailWords[1], true)];
  }

  lemma DetailKeysDistinct()
    ensures DetailKeys[0] == "total_reviews" && DetailWords[0] == "review"
    ensures DetailKeys[1] == "total_friends" && DetailWords[1] == "friend"
    ensures DetailKeys[2] == "business_photos_uploaded" && DetailWords[2] == "photo"
    ensures "total_reviews" != "total_friends"
    ensures "total_reviews" != "business_photos_uploaded"
    ensures "total_friends" != "business_photos_uploaded"
  {
    assert "total_reviews"[6] != "total_friends"[6];
    assert |"total_reviews"| != |"business_photos_uploaded"|;
    assert |"total_friends"| != |"business_photos_uploaded"|;
  }

  /** A container with no digit in its text keeps every statistic at 0. */
  lemma NoDigitsNoDetails(text: string)
    requires forall k :: 0 <= k < |text| ==> !IsDigit(text[k])
    ensures forall key :: key in DetailsOf(text) ==> DetailsOf(text)[key] == 0
  {
    NoDigitNoCount(text, "review", true, 0);
    NoDigitNoCount(text, "friend", true, 0);
    NoDigitNoCount(text, "photo", true, 0);
  }

  /**
   * "<n> Review(s)", "<n> Friend(s)" or "<n> Photo(s)", in any letter case,
   * is read back as `n` under its own statistic.
   */
  lemma DetailsReadBack(n: nat, shown: string, j: nat)
    requires j < |DetailWords|
    requires Lower(shown) == DetailWords[j] || Lower(shown) == DetailWords[j] + "s"
    ensures DetailsOf(NatToString(n) + " " + shown)[DetailKeys[j]] == n
  {
    DetailKeysDistinct();
    var word := DetailWords[j];
    assert |word| > 0 && IsLetter(word[0]);
    StatisticReadsBack(n, shown, word);
  }

  /** "<n> word" or "<n> words", in any letter case, gives the count `n` for `word`. */
  lemma StatisticReadsBack(n: nat, shown: string, word: string)
    requires |word| > 0 && IsLetter(word[0])
    requires Lower(shown) == word || Lower(shown) == word + "s"
    ensures CountBefore(NatToString(n) + " " + shown, word, true) == n
  {
    if Lower(shown) == word {
      CountReadsBack(n, shown, word, true);
    } else {
      var m := |word|;
      var stem := shown[..m];
      assert Lower(stem) == word by {
        assert forall i :: 0 <= i < m ==> Lower(stem)[i] == Lower(shown)[i];
      }
      assert LowerChar(shown[m]) == 's' by {
        assert Lower(shown)[m] == 's';
      }
      assert shown == stem + [shown[m]];
      PluralCountReadsBack(n, stem, word, shown[m]);
      assert NatToString(n) + " " + stem + [shown[m]] == NatToString(n) + " " + shown;
    }
  }

  /** `"," in text and any(c.isalpha() for c in text)`. */
  predicate LooksLikePlace(text: string)
  {
    Contains(text, ",") && HasLetter(text)
  }

  /** The span texts `_extract_reviewer_location` collects. */
  function LocationCandidates(c: Node): seq<string>
  {
    Filter(Map(FindAll(c, TagIs("span")), PlainText), LooksLikePlace)
  }

  /** What `_extract_reviewer_location` returns: the shortest place-like span text, the earliest on a tie. */
  function ReviewerLocation(c: Node): (r: Option<string>)
    ensures r.None? <==> LocationCandidates(c) == []
    ensures r.Some? ==> r.value == LocationCandidates(c)[ShortestIndex(LocationCandidates(c))]
    ensures r.Some? ==> LooksLikePlace(r.value)
  {
    var candidates := LocationCandidates(c);
    if candidates == [] then None
    else
      SortedHeadIsFirstShortest(candidates);
      FilterElementsPass(Map(FindAll(c, TagIs("span")), PlainText), LooksLikePlace);
      Some(SortByLength(candidates)[0])
  }

  /** `_extract_reviewer_location`: collects candidates, sorts them by length, returns the head. */
  method ExtractReviewerLocation(c: Node) returns (r: Option<string>)
    ensures r == ReviewerLocation(c)
  {
    var spans := FindAll(c, TagIs("span"));
    var candidates: seq<string> := [];
    for i := 0 to |spans|
      invariant candidates == Filter(Map(spans[..i], PlainText), LooksLikePlace)
    {
      FilterMapStep(spans, i, PlainText, LooksLikePlace);
      var text := PlainText(spans[i]);
      if Contains(text, ",") && HasLetter(text) {
        candidates := candidates + [text];
      }
    }
    assert spans[..|spans|] == spans;
    if candidates != [] {
      SortedHeadIsFirstShortest(candidates);
      var sorted := SortByLength(candidates);
      r := Some(sorted[0]);
    } else {
      r := None;
    }
  }

  /**
   * `_extract_reviewer_rating`: the first number in the label of the first
   * star-rating widget. Nothing checks that it lies between 1 and 5.
   */
  function ReviewerRating(c: Node): (r: Option<int>)
    ensures r.Some? <==> Find(c, HasStarLabel).Some? && HasDigit(Attr(Find(c, HasStarLabel).value, "aria-label"))
    ensures r.Some? ==> r.value >= 0
    ensures r.Some? ==>
      FirstNumber(Attr(Find(c, HasStarLabel).value, "aria-label")) == Some(r.value)
  {
    var widget := Find(c, HasStarLabel);
    if widget.None? then None
    else
      var aria := Attr(widget.value, "aria-label");
      FirstRunFromFinds(aria, 0, IsDigit);
      match FirstNumber(aria)
      case Some(n) => Some(n)
      case None => None
  }

  /** A label such as "12 star rating" yields 12: the rating is read, not range-checked. */
  lemma RatingLabelReadsBack(n: nat)
    ensures FirstNumber(NatToString(n) + " star rating") == Some(n)
  {
    FirstNumberReadsBack(n, " star rating");
  }

  // ---------------------------------------------------------------------
  // Date, text, media, reactions
  // ---------------------------------------------------------------------

  /** The review-date heuristic: a month name or a year from 2000 to 2099. */
  predicate IsDateLike(text: string)
  {
    MentionsMonth(text) || MentionsYear(text)
  }

  /** A span's text when it looks like a date. */
  function DatedSpanText(x: Node): Option<string>
  {
    var text := PlainText(x);
    if IsDateLike(text) then Some(text) else None
  }

  /**
   * `_extract_review_date_raw`: the text of the first `time` that has any,
   * else the text of the first span that mentions a month or a year.
   */
  function ReviewDateRaw(c: Node): (r: Option<string>)
    ensures r.Some? ==> r.value != ""
    ensures
      var times := FindAll(c, TagIs("time"));
      var spans := FindAll(c, TagIs("span"));
      if exists i :: 0 <= i < |times| && PlainText(times[i]) != "" then
        r.Some? &&
        exists k :: 0 <= k < |times| && PlainText(times[k]) == r.value &&
          forall i :: 0 <= i < k ==> PlainText(times[i]) == ""
      else if exists i :: 0 <= i < |spans| && IsDateLike(PlainText(spans[i])) then
        r.Some? &&
        exists k :: 0 <= k < |spans| && PlainText(spans[k]) == r.value && IsDateLike(r.value) &&
          forall i :: 0 <= i < k ==> !IsDateLike(PlainText(spans[i]))
      else r.None?
  {
    OrElse(FirstSome(FindAll(c, TagIs("time")), TextIfAny), FirstSome(FindAll(c, TagIs("span")), DatedSpanText))
  }

  /**
   * `parse_review_date(raw).isoformat() if raw else None`: no date stays
   * absent, a date is stored in ISO form, and one the parser rejects fails
   * the whole record.
   */
  function IsoDate(raw: Option<string>, codec: DateCodec): (r: Result<Option<string>, DateError>)
    ensures r.Failure? <==> raw.Some? && raw.value != "" && codec.parse(raw.value).None?
    ensures r.Failure? ==> r.error == UnparseableDate(raw.value)
    ensures r.Ok? && r.value.Some? ==>
      raw.Some? && codec.parse(raw.value).Some? && r.value.value == codec.iso(codec.parse(raw.value).value)
    ensures r.Ok? && r.value.None? ==> raw.None? || raw.value == ""
  {
    if raw.None? || raw.value == "" then Ok(None)
    else
      match ParseReviewDate(codec, raw.value)
      case Ok(instant) => Ok(Some(codec.iso(instant)))
      case Failure(e) => Failure(e)
  }

  /**
   * With a parser that reads its own ISO output back, storing a date is
   * normalising it: whatever the page showed, the stored text is the one
   * storing that text again would give.
   */
  lemma StoredDateIsStable(raw: Option<string>, codec: DateCodec)
    requires IsoRoundTrips(codec)
    requires IsoDate(raw, codec).Ok?
    ensures IsoDate(IsoDate(raw, codec).value, codec) == IsoDate(raw, codec)
  {
    var stored := IsoDate(raw, codec).value;
    if stored.Some? {
      var d := codec.parse(raw.value).value;
      assert stored.value == codec.iso(d);
      assert codec.iso(d) != "" && codec.parse(codec.iso(d)) == Some(d);
    }
  }

  /** `len(p.get_text(" ", strip=True).split()) > 3`. */
  predicate IsSubstantial(text: string)
  {
    WordCount(text) > 3
  }

  /** The paragraph texts long enough to keep. */
  function ParagraphTexts(n: Node): seq<string>
  {
    Filter(Map(FindAll(n, TagIs("p")), SpacedText), IsSubstantial)
  }

  /**
   * What `_extract_review_text` returns: the kept paragraphs joined by
   * spaces, or None when none is long enough; the joined text keeps every
   * word of every kept paragraph, so it has more than three.
   */
  function ReviewText(n: Node): (r: Option<string>)
    ensures r.None? <==> ParagraphTexts(n) == []
    ensures r.Some? ==> r.value == Join(ParagraphTexts(n), " ")
    ensures r.Some? ==> WordCount(r.value) == TotalWords(ParagraphTexts(n))
    ensures r.Some? ==> WordCount(r.value) > 3
  {
    var paragraphs := ParagraphTexts(n);
    if paragraphs == [] then None
    else
      JoinKeepsWords(paragraphs);
      FilterElementsPass(Map(FindAll(n, TagIs("p")), SpacedText), IsSubstantial);
      TotalWordsCoversEachPart(paragraphs, 0);
      Some(Join(paragraphs, " "))
  }

  /**
   * The kept paragraph texts are those of the `p` tags, in document order,
   * that have more than three words: no other text, and none of those left out.
   */
  lemma ParagraphTextsAreLongParagraphs(n: Node)
    ensures IsSubsequence(ParagraphTexts(n), Map(FindAll(n, TagIs("p")), SpacedText))
    ensures forall t :: t in ParagraphTexts(n) <==> t in Map(FindAll(n, TagIs("p")), SpacedText) && WordCount(t) > 3
  {
    var texts := Map(FindAll(n, TagIs("p")), SpacedText);
    FilterIsSubsequence(texts, IsSubstantial);
    forall t ensures t in ParagraphTexts(n) <==> t in texts && WordCount(t) > 3 {
      FilterMembership(texts, IsSubstantial, t);
    }
  }

  /** The text is absent exactly when no paragraph has more than three words. */
  lemma ReviewTextAbsentIffNoLongParagraph(n: Node)
    ensures ReviewText(n).None? <==>
      forall i :: 0 <= i < |FindAll(n, TagIs("p"))| ==> WordCount(SpacedText(FindAll(n, TagIs("p"))[i])) <= 3
  {
    FilterEmpty(Map(FindAll(n, TagIs("p")), SpacedText), IsSubstantial);
  }

  /** `_extract_review_text`, also the paragraph loop of `_extract_business_response`. */
  method ExtractReviewText(n: Node) returns (r: Option<string>)
    ensures r == ReviewText(n)
  {
    var ps := FindAll(n, TagIs("p"));
    var paragraphs: seq<string> := [];
    for i := 0 to |ps|
      invariant paragraphs == Filter(Map(ps[..i], SpacedText), IsSubstantial)
    {
      FilterMapStep(ps, i, SpacedText, IsSubstantial);
      var text := SpacedText(ps[i]);
      if WordCount(text) > 3 {
        paragraphs := paragraphs + [text];
      }
    }
    assert ps[..|ps|] == ps;
    if paragraphs != [] {
      r := Some(Join(paragraphs, " "));
    } else {
      r := None;
    }
  }

  function SrcOf(x: Node): string
  {
    Attr(x, "src")
  }

  /** `src and "yelp" in src`. */
  predicate IsYelpSrc(src: string)
  {
    src != "" && Contains(src, "yelp")
  }

  /** The image sources considered, in document order, before de-duplication. */
  function ImageSources(c: Node): seq<string>
  {
    Filter(Map(FindAll(c, TagIs("img")), SrcOf), IsYelpSrc)
  }

  /** `video.find_all("source")`. */
  function SourceNodes(video: Node): seq<Node>
  {
    FindAll(video, TagIs("source"))
  }

  /** The non-empty `src` values of some `source` tags. */
  function KeptSources(sources: seq<Node>): seq<string>
  {
    Filter(Map(sources, SrcOf), NonEmpty)
  }

  /** The video sources considered: every video's `source` targets, video by video. */
  function VideoSources(c: Node): seq<string>
  {
    Concat(Map(Map(FindAll(c, TagIs("video")), SourceNodes), KeptSources))
  }

  /** What `_extract_review_media_urls` returns: image sources, then video sources, each URL once. */
  function MediaUrls(c: Node): seq<string>
  {
    Dedup(ImageSources(c) + VideoSources(c))
  }

  /**
   * The media list has no duplicates, holds exactly the considered image and
   * video sources, lists the images first in their first-seen order, and
   * after them only video sources that are not also images.
   */
  lemma MediaUrlsShape(c: Node)
    ensures NoDuplicates(MediaUrls(c))
    ensures forall u :: u in MediaUrls(c) <==> u in ImageSources(c) || u in VideoSources(c)
    ensures |Dedup(ImageSources(c))| <= |MediaUrls(c)|
    ensures MediaUrls(c)[..|Dedup(ImageSources(c))|] == Dedup(ImageSources(c))
    ensures forall i :: |Dedup(ImageSources(c))| <= i < |MediaUrls(c)| ==>
      MediaUrls(c)[i] in VideoSources(c) && MediaUrls(c)[i] !in ImageSources(c)
  {
    DedupProperties(ImageSources(c) + VideoSources(c));
    DedupAppend(ImageSources(c), VideoSources(c));
  }

  /**
   * Every image URL in the list mentions "yelp", and the list is in the order
   * in which each URL was first met, images before videos.
   */
  lemma MediaUrlsOrder(c: Node)
    ensures forall i :: 0 <= i < |MediaUrls(c)| && MediaUrls(c)[i] in ImageSources(c) ==> Contains(MediaUrls(c)[i], "yelp")
    ensures forall j, k :: 0 <= j < k < |MediaUrls(c)| ==>
      MediaUrls(c)[j] in ImageSources(c) + VideoSources(c) &&
      MediaUrls(c)[k] in ImageSources(c) + VideoSources(c) &&
      FirstIndex(ImageSources(c) + VideoSources(c), MediaUrls(c)[j]) <
      FirstIndex(ImageSources(c) + VideoSources(c), MediaUrls(c)[k])
  {
    var images := ImageSources(c);
    forall i | 0 <= i < |MediaUrls(c)| && MediaUrls(c)[i] in images ensures Contains(MediaUrls(c)[i], "yelp") {
      FilterMembership(Map(FindAll(c, TagIs("img")), SrcOf), IsYelpSrc, MediaUrls(c)[i]);
    }
    DedupKeepsFirstOccurrenceOrder(images + VideoSources(c));
  }

  /** `_extract_review_media_urls`: appends each new URL, images first, then every video's sources. */
  method ExtractReviewMediaUrls(c: Node) returns (urls: seq<string>)
    ensures urls == MediaUrls(c)
  {
    urls := AppendNewSources([], [], FindAll(c, TagIs("img")), IsYelpSrc);
    assert [] + ImageSources(c) == ImageSources(c);
    var videoSources := Map(FindAll(c, TagIs("video")), SourceNodes);
    urls := AppendVideoSources(urls, ImageSources(c), videoSources);
  }

  /** The video loop of `_extract_review_media_urls`, given each video's `source` tags. */
  method AppendVideoSources(urls: seq<string>, ghost seen: seq<string>, videoSources: seq<seq<Node>>)
    returns (out: seq<string>)
    requires urls == Dedup(seen)
    ensures out == Dedup(seen + Concat(Map(videoSources, KeptSources)))
  {
    out := urls;
    ConcatMapPrefixEmpty(seen, videoSources, KeptSources);
    for i := 0 to |videoSources|
      invariant out == Dedup(seen + Concat(Map(videoSources[..i], KeptSources)))
    {
      out := AppendNewSources(out, seen + Concat(Map(videoSources[..i], KeptSources)), videoSources[i], NonEmpty);
      VideoStep(seen, videoSources, i);
    }
    assert videoSources[..|videoSources|] == videoSources;
  }

  lemma VideoStep(seen: seq<string>, videoSources: seq<seq<Node>>, i: nat)
    requires i < |videoSources|
    ensures seen + Concat(Map(videoSources[..i], KeptSources)) + Filter(Map(videoSources[i], SrcOf), NonEmpty) ==
      seen + Concat(Map(videoSources[..i + 1], KeptSources))
  {
    ConcatMapStep(videoSources, i, KeptSources);
  }

  /** One loop of `_extract_review_media_urls`: appends each kept `src` not seen before. */
  method AppendNewSources(urls: seq<string>, ghost seen: seq<string>, nodes: seq<Node>, keep: string -> bool)
    returns (out: seq<string>)
    requires urls == Dedup(seen)
    ensures out == Dedup(seen + Filter(Map(nodes, SrcOf), keep))
  {
    out := urls;
    assert seen + Filter(Map(nodes[..0], SrcOf), keep) == seen;
    for j := 0 to |nodes|
      invariant out == Dedup(seen + Filter(Map(nodes[..j], SrcOf), keep))
    {
      DedupFilterMapStep(seen, nodes, j, SrcOf, keep, out);
      var src := SrcOf(nodes[j]);
      if keep(src) && src !in out {
        out := out + [src];
      }
    }
    assert nodes[..|nodes|] == nodes;
  }

  /**
   * `_extract_reaction_counts`: the number before the first "Helpful",
   * "Thanks", "Love this" and "Oh no" in the container's text, each 0 when
   * absent; a text without digits has no reactions.
   */
  function ReactionCounts(c: Node): (r: (nat, nat, nat, nat))
    ensures var text := SpacedText(c);
      r.0 == CountBefore(text, "helpful", false) && r.1 == CountBefore(text, "thanks", false) &&
      r.2 == CountBefore(text, "love this", false) && r.3 == CountBefore(text, "oh no", false)
    ensures (forall k :: 0 <= k < |SpacedText(c)| ==> !IsDigit(SpacedText(c)[k])) ==> r == (0, 0, 0, 0)
  {
    NoReactionsWithoutDigits(SpacedText(c));
    var text := SpacedText(c);
    (CountBefore(text, "helpful", false), CountBefore(text, "thanks", false),
     CountBefore(text, "love this", false), CountBefore(text, "oh no", false))
  }

  lemma NoReactionsWithoutDigits(text: string)
    ensures (forall k :: 0 <= k < |text| ==> !IsDigit(text[k])) ==>
      CountBefore(text, "helpful", false) == 0 && CountBefore(text, "thanks", false) == 0 &&
      CountBefore(text, "love this", false) == 0 && CountBefore(text, "oh no", false) == 0
  {
    if forall k :: 0 <= k < |text| ==> !IsDigit(text[k]) {
      NoDigitNoCount(text, "helpful", false, 0);
      NoDigitNoCount(text, "thanks", false, 0);
      NoDigitNoCount(text, "love this", false, 0);
      NoDigitNoCount(text, "oh no", false, 0);
    }
  }

  /** The reaction a button shows as "<n> Helpful" (any letter case) is read back as `n`. */
  lemma ReactionReadsBack(n: nat, shown: string, word: string)
    requires word in ["helpful", "thanks", "love this", "oh no"]
    requires Lower(shown) == word
    ensures CountBefore(NatToString(n) + " " + shown, word, false) == n
  {
    CountReadsBack(n, shown, word, false);
  }

  // ---------------------------------------------------------------------
  // Business response
  // ---------------------------------------------------------------------

  /** A `div` whose spaced text mentions an owner. */
  predicate IsOwnerBlock(x: Node)
  {
    x.Element? && x.tag == "div" && MentionsOwner(SpacedText(x))
  }

  /** A span's text when it names a month. */
  function MonthSpanText(x: Node): Option<string>
  {
    var text := PlainText(x);
    if MentionsMonth(text) then Some(text) else None
  }

  /** The response date as shown: the first `time` with text, else the first span naming a month (no year rule here). */
  function ResponseDateRaw(block: Node): (r: Option<string>)
    ensures r.Some? ==> r.value != ""
    ensures
      var times := FindAll(block, TagIs("time"));
      var spans := FindAll(block, TagIs("span"));
      if exists i :: 0 <= i < |times| && PlainText(times[i]) != "" then
        r.Some? &&
        exists k :: 0 <= k < |times| && PlainText(times[k]) == r.value &&
          forall i :: 0 <= i < k ==> PlainText(times[i]) == ""
      else if exists i :: 0 <= i < |spans| && MentionsMonth(PlainText(spans[i])) then
        r.Some? &&
        exists k :: 0 <= k < |spans| && PlainText(spans[k]) == r.value && MentionsMonth(r.value) &&
          forall i :: 0 <= i < k ==> !MentionsMonth(PlainText(spans[i]))
      else r.None?
  {
    OrElse(FirstSome(FindAll(block, TagIs("time")), TextIfAny), FirstSome(FindAll(block, TagIs("span")), MonthSpanText))
  }

  /**
   * The two date fallbacks differ: a span showing only a year dates a review
   * but not a business response.
   */
  lemma YearOnlySpanDatesReviewsOnly(x: Node)
    requires |PlainText(x)| == 4 && PlainText(x)[0] == '2' && PlainText(x)[1] == '0'
    requires IsDigit(PlainText(x)[2]) && IsDigit(PlainText(x)[3])
    ensures DatedSpanText(x) == Some(PlainText(x))
    ensures MonthSpanText(x).None?
  {
    BareYearIsNotAMonth(PlainText(x));
  }

  datatype ResponseParts = ResponseParts(author: Option<string>, date: Option<string>, content: Option<string>)

  /**
   * What `_extract_business_response` returns: nothing without an owner
   * block; otherwise the block's first `strong` text, its date in ISO form
   * and its paragraphs; an unparseable date fails.
   */
  function BusinessResponse(c: Node, codec: DateCodec): (r: Result<ResponseParts, DateError>)
    ensures Find(c, IsOwnerBlock).None? ==> r == Ok(ResponseParts(None, None, None))
    ensures r.Failure? ==> Find(c, IsOwnerBlock).Some? && IsoDate(ResponseDateRaw(Find(c, IsOwnerBlock).value), codec).Failure?
    ensures r.Ok? && Find(c, IsOwnerBlock).Some? ==>
      var block := Find(c, IsOwnerBlock).value;
      r.value.author == StrongText(block) && r.value.content == ReviewText(block) &&
      IsoDate(ResponseDateRaw(block), codec) == Ok(r.value.date)
  {
    match Find(c, IsOwnerBlock)
    case None => Ok(ResponseParts(None, None, None))
    case Some(block) =>
      match IsoDate(ResponseDateRaw(block), codec)
      case Failure(e) => Failure(e)
      case Ok(date) => Ok(ResponseParts(StrongText(block), date, ReviewText(block)))
  }

  /** `_extract_business_response`. */
  method ExtractBusinessResponse(c: Node, codec: DateCodec) returns (r: Result<ResponseParts, DateError>)
    ensures r == BusinessResponse(c, codec)
  {
    var block := Find(c, IsOwnerBlock);
    if block.None? {
      return Ok(ResponseParts(None, None, None));
    }
    var author := StrongText(block.value);
    var date := IsoDate(ResponseDateRaw(block.value), codec);
    if date.Failure? {
      return Failure(date.error);
    }
    var content := ExtractReviewText(block.value);
    r := Ok(ResponseParts(author, date.value, content));
  }

  // ---------------------------------------------------------------------
  // The whole record
  // ---------------------------------------------------------------------

  /**
   * What `_parse_single_review` returns: every field from its own strategy;
   * the review date is parsed before the response's, so its failure is the
   * one reported.
   */
  function ReviewOf(c: Node, codec: DateCodec): (r: Result<Review, DateError>)
    ensures r.Failure? <==> IsoDate(ReviewDateRaw(c), codec).Failure? || BusinessResponse(c, codec).Failure?
    ensures r.Failure? && IsoDate(ReviewDateRaw(c), codec).Failure? ==> r.error == IsoDate(ReviewDateRaw(c), codec).error
    ensures r.Ok? ==> r.value.reviewDate == IsoDate(ReviewDateRaw(c), codec).value
    ensures r.Ok? ==>
      r.value.reviewerName == ReviewerName(c) && r.value.avatarUrl == AvatarUrl(c) &&
      r.value.reviewerDetails == ReviewerDetails(c) && r.value.reviewerLocation == ReviewerLocation(c) &&
      r.value.reviewerRating == ReviewerRating(c) && r.value.reviewText == ReviewText(c) &&
      r.value.mediaUrls == MediaUrls(c)
    ensures r.Ok? ==>
      (r.value.helpfulCount, r.value.thanksCount, r.value.loveThisCount, r.value.ohNoCount) == ReactionCounts(c)
    ensures r.Ok? ==>
      BusinessResponse(c, codec).Ok? &&
      r.value.responseAuthorName == BusinessResponse(c, codec).value.author &&
      r.value.responseDate == BusinessResponse(c, codec).value.date &&
      r.value.responseContent == BusinessResponse(c, codec).value.content
  {
    var date := IsoDate(ReviewDateRaw(c), codec);
    var response := BusinessResponse(c, codec);
    if date.Failure? then Failure(date.error)
    else if response.Failure? then Failure(response.error)
    else
      var (helpful, thanks, love, ohNo) := ReactionCounts(c);
      Ok(Review(
        ReviewerName(c),
        AvatarUrl(c),
        ReviewerDetails(c),
        ReviewerLocation(c),
        ReviewerRating(c),
        date.value,
        ReviewText(c),
        MediaUrls(c),
        helpful, thanks, love, ohNo,
        response.value.author, response.value.date, response.value.content))
  }

  /** `_parse_single_review`: runs each strategy on the container and assembles the record. */
  method ParseSingleReview(c: Node, codec: DateCodec) returns (r: Result<Review, DateError>)
    ensures r == ReviewOf(c, codec)
  {
    var name := ReviewerName(c);
    var avatar := AvatarUrl(c);
    var details := ExtractReviewerDetails(c);
    var location := ExtractReviewerLocation(c);
    var rating := ReviewerRating(c);
    var date := IsoDate(ReviewDateRaw(c), codec);
    if date.Failure? {
      return Failure(date.error);
    }
    var text := ExtractReviewText(c);
    var media := ExtractReviewMediaUrls(c);
    var (helpful, thanks, love, ohNo) := ReactionCounts(c);
    var response := ExtractBusinessResponse(c, codec);
    if response.Failure? {
      return Failure(response.error);
    }
    r := Ok(Review(
      name, avatar, details, location, rating, date.value, text, media,
      helpful, thanks, love, ohNo,
      response.value.author, response.value.date, response.value.content));
  }
}
