/**
 * The business record of a page: one strategy per field, each a cascade of
 * places to look, the first that yields a value winning.
 */
module BusinessExtraction {

  import opened Seqs
  import opened Text
  import opened Patterns
  import opened Dom
  import opened Records
  import opened Selectors

  /**
   * The `@type` of a decoded script: a text; another hashable value (a number,
   * a boolean, null, or no key at all); or a list or an object, which Python
   * cannot hash and so cannot look up in a set.
   */
  datatype LdType = TypeText(name: string) | TypeOther | TypeUnhashable

  /**
   * `data.get("aggregateRating") or {}`: an object, with its `ratingValue` when
   * `float()` accepts it (an absent or falsy value reads as the empty
   * object), or another truthy value, which has no `.get`.
   */
  datatype LdAggregate = AggregateObject(ratingValue: Option<string>) | AggregateNotObject

  /** One address part: a text, a falsy value (absent, null, 0, false), or a truthy value that is not a text. */
  datatype LdPart = TextPart(text: string) | FalsyPart | OtherPart

  datatype LdAddress = LdAddress(streetAddress: LdPart, addressLocality: LdPart, addressRegion: LdPart, postalCode: LdPart)

  /**
   * An ld+json script decoded to a JSON object. `address` is None when
   * `data.get("address") or {}` is not an object.
   */
  datatype LdRecord = LdRecord(kind: LdType, aggregate: LdAggregate, address: Option<LdAddress>)

  /** `json.loads` on a script's text; None where it raises or yields something other than an object. */
  type JsonDecoder = string -> Option<LdRecord>

  /** What a script makes the business strategies raise; nothing catches it, so the page fails. */
  datatype ScriptError =
    | UnhashableType        // `@type` is a list or an object
    | AggregateNotAnObject  // `aggregateRating` is truthy but not an object
    | AddressPartNotText    // `" ".join` meets an address part that is not a text

  // ---------------------------------------------------------------------
  // Matching rules
  // ---------------------------------------------------------------------

  predicate IsOgTitle(x: Node)
  {
    x.Element? && x.tag == "meta" && HasAttr(x, "property") && x.attrs["property"] == "og:title"
  }

  predicate IsLdScript(x: Node)
  {
    x.Element? && x.tag == "script" && HasAttr(x, "type") && x.attrs["type"] == "application/ld+json"
  }

  /** `find_all(text=re.compile(r"\breviews?\b", re.I))`. */
  predicate IsReviewsString(x: Node)
  {
    x.StringNode? && MentionsReviews(x.content)
  }

  /** `find_all(string=re.compile(r"^\$+$"))`. */
  predicate IsPriceString(x: Node)
  {
    x.StringNode? && IsPriceMarkup(x.content)
  }

  predicate IsBusinessType(kind: string)
  {
    kind == "Restaurant" || kind == "LocalBusiness"
  }

  // ---------------------------------------------------------------------
  // ld+json scripts
  // ---------------------------------------------------------------------

  /** `script.string or ""`. */
  function ScriptText(x: Node): string
  {
    match SingleString(x)
    case Some(s) => s
    case None => ""
  }

  /**
   * `isinstance(data, dict) and data.get("@type") in {...}`: the decoded
   * script when it describes a business, nothing for any other script, and
   * an error when the type cannot be hashed.
   */
  function LdBusiness(x: Node, decode: JsonDecoder): (r: Result<Option<LdRecord>, ScriptError>)
    ensures r.Failure? <==> decode(ScriptText(x)).Some? && decode(ScriptText(x)).value.kind.TypeUnhashable?
    ensures r.Ok? && r.value.Some? <==>
      decode(ScriptText(x)).Some? && decode(ScriptText(x)).value.kind.TypeText? &&
      IsBusinessType(decode(ScriptText(x)).value.kind.name)
    ensures r.Ok? && r.value.Some? ==> r.value.value == decode(ScriptText(x)).value
  {
    match decode(ScriptText(x))
    case None => Ok(None)
    case Some(rec) =>
      match rec.kind
      case TypeUnhashable => Failure(UnhashableType)
      case TypeOther => Ok(None)
      case TypeText(name) => Ok(if IsBusinessType(name) then Some(rec) else None)
  }

  /**
   * One turn of the ld+json loop of `_extract_average_rating`: None to go on
   * to the next script, the rating to return, or the error raised.
   */
  function RatingStep(decode: JsonDecoder): Node -> Option<Result<string, ScriptError>>
  {
    (x: Node) =>
      match LdBusiness(x, decode)
      case Failure(e) => Some(Failure(e))
      case Ok(None) => None
      case Ok(Some(rec)) =>
        match rec.aggregate
        case AggregateNotObject => Some(Failure(AggregateNotAnObject))
        case AggregateObject(value) => if value.Some? then Some(Ok(value.value)) else None
  }

  function Parts(a: LdAddress): seq<LdPart>
  {
    [a.streetAddress, a.addressLocality, a.addressRegion, a.postalCode]
  }

  function PartString(p: LdPart): string
  {
    if p.TextPart? then p.text else ""
  }

  /**
   * `" ".join(p for p in parts if p).strip()`: the non-empty parts in the
   * order street, locality, region, postal code; a truthy part that is not
   * a text makes the join raise.
   */
  function JoinedAddress(a: LdAddress): Result<string, ScriptError>
  {
    if exists i :: 0 <= i < 4 && Parts(a)[i].OtherPart? then Failure(AddressPartNotText)
    else Ok(Strip(Join(Filter(Map(Parts(a), PartString), NonEmpty), " ")))
  }

  /** The address object of a business script; None for any other script or a non-object address. */
  function ScriptAddress(x: Node, decode: JsonDecoder): Result<Option<LdAddress>, ScriptError>
  {
    match LdBusiness(x, decode)
    case Failure(e) => Failure(e)
    case Ok(None) => Ok(None)
    case Ok(Some(rec)) => Ok(rec.address)
  }

  /** One turn of the ld+json loop of `_extract_business_address`. */
  function AddressStep(decode: JsonDecoder): Node -> Option<Result<string, ScriptError>>
  {
    (x: Node) =>
      match ScriptAddress(x, decode)
      case Failure(e) => Some(Failure(e))
      case Ok(None) => None
      case Ok(Some(a)) =>
        match JoinedAddress(a)
        case Failure(e) => Some(Failure(e))
        case Ok(text) => if text != "" then Some(Ok(text)) else None
  }

  /** The text a script yields in the address loop is the join of that script's address parts. */
  lemma AddressHitIsJoined(scripts: seq<Node>, decode: JsonDecoder, text: string)
    requires exists k :: (0 <= k < |scripts| && AddressStep(decode)(scripts[k]) == Some(Ok(text)) &&
      forall i :: 0 <= i < k ==> AddressStep(decode)(scripts[i]).None?)
    ensures exists k :: (0 <= k < |scripts| && ScriptAddress(scripts[k], decode).Ok? &&
      ScriptAddress(scripts[k], decode).value.Some? && JoinedAddress(ScriptAddress(scripts[k], decode).value.value) == Ok(text) &&
      forall i :: 0 <= i < k ==> AddressStep(decode)(scripts[i]).None?)
  {
    var k :| 0 <= k < |scripts| && AddressStep(decode)(scripts[k]) == Some(Ok(text)) &&
      forall i :: 0 <= i < k ==> AddressStep(decode)(scripts[i]).None?;
    assert ScriptAddress(scripts[k], decode).Ok? && ScriptAddress(scripts[k], decode).value.Some?;
  }

  /** Four non-empty parts without surrounding whitespace are joined by single spaces. */
  lemma AddressJoinsParts(street: string, locality: string, region: string, postal: string)
    requires street != [] && locality != [] && region != [] && postal != []
    requires !IsSpace(street[0]) && !IsSpace(postal[|postal| - 1])
    ensures JoinedAddress(LdAddress(TextPart(street), TextPart(locality), TextPart(region), TextPart(postal))) ==
      Ok(street + " " + locality + " " + region + " " + postal)
  {
    var a := LdAddress(TextPart(street), TextPart(locality), TextPart(region), TextPart(postal));
    var texts := [street, locality, region, postal];
    assert Map(Parts(a), PartString) == texts;
    FilterAllPass(texts, NonEmpty);
    assert [street, locality][..1] == [street];
    assert Join([street, locality], " ") == street + " " + locality;
    assert [street, locality, region][..2] == [street, locality];
    assert Join([street, locality, region], " ") == street + " " + locality + " " + region;
    assert texts[..3] == [street, locality, region];
    var joined := street + " " + locality + " " + region + " " + postal;
    assert Join(texts, " ") == joined;
    StripUnchanged(joined);
  }

  /** Missing parts are skipped, with no doubled space left where they were. */
  lemma {:induction false} AddressSkipsMissingParts(street: string, postal: string)
    requires street != [] && postal != []
    requires !IsSpace(street[0]) && !IsSpace(postal[|postal| - 1])
    ensures JoinedAddress(LdAddress(TextPart(street), FalsyPart, TextPart(""), TextPart(postal))) ==
      Ok(street + " " + postal)
  {
    var a := LdAddress(TextPart(street), FalsyPart, TextPart(""), TextPart(postal));
    var texts := [street, "", "", postal];
    assert Parts(a) == [TextPart(street), FalsyPart, TextPart(""), TextPart(postal)];
    assert !exists i :: 0 <= i < 4 && Parts(a)[i].OtherPart?;
    assert Map(Parts(a), PartString) == texts;
    assert Filter(texts, NonEmpty) == [street, postal] by {
      assert texts == [street] + ["", ""] + [postal];
      FilterAppend([street] + ["", ""], [postal], NonEmpty);
      FilterAppend([street], ["", ""], NonEmpty);
      assert Filter(["", ""], NonEmpty) == [] by {
        FilterEmpty(["", ""], NonEmpty);
      }
      FilterAllPass([street], NonEmpty);
      FilterAllPass([postal], NonEmpty);
    }
    assert Join([street, postal], " ") == street + " " + postal by {
      assert [street, postal][..1] == [street];
    }
    StripUnchanged(street + " " + postal);
  }

  /** A truthy part that is not a text, such as a numeric postal code, makes the join raise. */
  lemma NumericPostalCodeRaises(street: LdPart, locality: LdPart, region: LdPart)
    ensures JoinedAddress(LdAddress(street, locality, region, OtherPart)) == Failure(AddressPartNotText)
  {
    assert Parts(LdAddress(street, locality, region, OtherPart))[3].OtherPart?;
  }

  // ---------------------------------------------------------------------
  // Field strategies
  // ---------------------------------------------------------------------

  /**
   * `_extract_business_name`: the visible text of the first `h1` when it has
   * any, else the stripped `content` of the first `og:title` meta tag when
   * that is non-empty.
   */
  function BusinessName(doc: Node): (r: Option<string>)
    ensures Find(doc, TagIs("h1")).Some? && PlainText(Find(doc, TagIs("h1")).value) != "" ==>
      r == Some(PlainText(Find(doc, TagIs("h1")).value))
    ensures (Find(doc, TagIs("h1")).None? || PlainText(Find(doc, TagIs("h1")).value) == "") ==>
      if Find(doc, IsOgTitle).Some? && Attr(Find(doc, IsOgTitle).value, "content") != "" then
        r == Some(Strip(Attr(Find(doc, IsOgTitle).value, "content")))
      else r.None?
  {
    var h1 := Find(doc, TagIs("h1"));
    if h1.Some? && PlainText(h1.value) != "" then Some(PlainText(h1.value))
    else
      var og := Find(doc, IsOgTitle);
      if og.Some? && Attr(og.value, "content") != "" then Some(Strip(Attr(og.value, "content")))
      else None
  }

  /** The number of the first star-rating label, when `float()` accepts it. */
  function WidgetRating(doc: Node): Option<string>
  {
    var widget := Find(doc, HasStarLabel);
    if widget.Some? then FirstDecimal(Attr(widget.value, "aria-label")) else None
  }

  /**
   * `_extract_average_rating`: the widget's number when it has one; else the
   * scripts in order, a business script with a rating giving that rating and
   * one that raises failing the whole extraction. Nothing bounds the value.
   */
  function AverageRating(doc: Node, decode: JsonDecoder): (r: Result<Option<string>, ScriptError>)
    ensures WidgetRating(doc).Some? ==> r == Ok(WidgetRating(doc))
    ensures WidgetRating(doc).None? ==>
      var scripts := FindAll(doc, IsLdScript);
      (r == Ok(None) <==> forall i :: 0 <= i < |scripts| ==> RatingStep(decode)(scripts[i]).None?) &&
      (r.Ok? && r.value.Some? ==>
        exists k :: 0 <= k < |scripts| && RatingStep(decode)(scripts[k]) == Some(Ok(r.value.value)) &&
          forall i :: 0 <= i < k ==> RatingStep(decode)(scripts[i]).None?) &&
      (r.Failure? ==>
        exists k :: 0 <= k < |scripts| && RatingStep(decode)(scripts[k]) == Some(Failure(r.error)) &&
          forall i :: 0 <= i < k ==> RatingStep(decode)(scripts[i]).None?)
  {
    if WidgetRating(doc).Some? then Ok(WidgetRating(doc))
    else FirstOutcome(FindAll(doc, IsLdScript), RatingStep(decode))
  }

  /** A business script whose `aggregateRating` is not an object raises; one with a rating yields it. */
  lemma RatingStepOutcomes(x: Node, decode: JsonDecoder, name: string, aggregate: LdAggregate, address: Option<LdAddress>)
    requires IsBusinessType(name)
    requires decode(ScriptText(x)) == Some(LdRecord(TypeText(name), aggregate, address))
    ensures aggregate.AggregateNotObject? ==> RatingStep(decode)(x) == Some(Failure(AggregateNotAnObject))
    ensures aggregate.AggregateObject? && aggregate.ratingValue.Some? ==>
      RatingStep(decode)(x) == Some(Ok(aggregate.ratingValue.value))
    ensures aggregate.AggregateObject? && aggregate.ratingValue.None? ==> RatingStep(decode)(x).None?
  {
  }

  /**
   * With no usable widget, a first script whose `@type` is a list or an
   * object makes the rating extraction raise, whatever later scripts hold.
   */
  lemma UnhashableTypeRaises(doc: Node, decode: JsonDecoder)
    requires WidgetRating(doc).None?
    requires FindAll(doc, IsLdScript) != []
    requires decode(ScriptText(FindAll(doc, IsLdScript)[0])).Some?
    requires decode(ScriptText(FindAll(doc, IsLdScript)[0])).value.kind.TypeUnhashable?
    ensures AverageRating(doc, decode) == Failure(UnhashableType)
  {
    var scripts := FindAll(doc, IsLdScript);
    assert RatingStep(decode)(scripts[0]) == Some(Failure(UnhashableType));
    assert FirstHit(scripts, RatingStep(decode)) == 0;
  }

  /** The widget's number is taken as shown: a label "n star rating" gives n, whatever n is. */
  lemma WidgetRatingIsUnbounded(n: nat)
    ensures FirstDecimal(NatToString(n) + " star rating") == Some(NatToString(n))
  {
    var digits := NatToString(n);
    var s := digits + " star rating";
    RunEndAt(s, 0, IsDigitOrDot, |digits|);
    assert s[0..|digits|] == digits;
    assert IsDigit(digits[0]);
  }

  function StrippedContent(x: Node): string
  {
    Strip(ContentOf(x))
  }

  /** The texts `_extract_total_reviews_text` collects: stripped "review(s)" strings that hold a digit. */
  function ReviewCountCandidates(doc: Node): seq<string>
  {
    Filter(Map(FindAll(doc, IsReviewsString), StrippedContent), HasDigit)
  }

  /**
   * What `_extract_total_reviews_text` returns, the head of the candidates
   * sorted by length: a candidate of least length, the earliest on a tie.
   */
  function TotalReviewsText(doc: Node): (r: Option<string>)
    ensures r.None? <==> ReviewCountCandidates(doc) == []
    ensures r.Some? ==> r.value == ReviewCountCandidates(doc)[ShortestIndex(ReviewCountCandidates(doc))]
  {
    var candidates := ReviewCountCandidates(doc);
    if candidates == [] then None
    else
      SortedHeadIsFirstShortest(candidates);
      Some(SortByLength(candidates)[0])
  }

  /** `_extract_total_reviews_text`: collects the candidates in document order, then sorts them by length. */
  method ExtractTotalReviewsText(doc: Node) returns (r: Option<string>)
    ensures r == TotalReviewsText(doc)
  {
    var candidates := CollectCountCandidates(FindAll(doc, IsReviewsString));
    if candidates != [] {
      SortedHeadIsFirstShortest(candidates);
      var sorted := SortByLength(candidates);
      r := Some(sorted[0]);
    } else {
      r := None;
    }
  }

  /** The collecting loop of `_extract_total_reviews_text`. */
  method CollectCountCandidates(strings: seq<Node>) returns (candidates: seq<string>)
    ensures candidates == Filter(Map(strings, StrippedContent), HasDigit)
  {
    candidates := [];
    for i := 0 to |strings|
      invariant candidates == Filter(Map(strings[..i], StrippedContent), HasDigit)
    {
      FilterMapStep(strings, i, StrippedContent, HasDigit);
      var val := StrippedContent(strings[i]);
      if HasDigit(val) {
        candidates := candidates + [val];
      }
    }
    assert strings[..|strings|] == strings;
  }

  function PriceOf(x: Node): Option<string>
  {
    var val := Strip(ContentOf(x));
    if 1 <= |val| <= 4 then Some(val) else None
  }

  /** A price-markup string strips to its run of dollar signs. */
  lemma PriceMarkupStrips(s: string)
    requires IsPriceMarkup(s)
    ensures AllDollars(Strip(s))
  {
    if AllDollars(s) {
      StripUnchanged(s);
    } else {
      var d := s[..|s| - 1];
      assert s == [] + d + "\n";
      StripPadding([], d, "\n");
    }
  }

  /**
   * `_extract_price_range`: the first price-markup string whose stripped
   * text has one to four characters; that text is all dollar signs.
   */
  function PriceRange(doc: Node): (r: Option<string>)
    ensures r.Some? ==> AllDollars(r.value) && |r.value| <= 4
    ensures r.None? <==> forall i :: 0 <= i < |FindAll(doc, IsPriceString)| ==>
      !(1 <= |Strip(ContentOf(FindAll(doc, IsPriceString)[i]))| <= 4)
    ensures r.Some? ==>
      var strings := FindAll(doc, IsPriceString);
      exists k :: 0 <= k < |strings| && r.value == Strip(ContentOf(strings[k])) && 1 <= |r.value| <= 4 &&
        forall i :: 0 <= i < k ==> !(1 <= |Strip(ContentOf(strings[i]))| <= 4)
  {
    FilterElementsPass(Descendants(doc), IsPriceString);
    FirstPriceIsDollars(FindAll(doc, IsPriceString));
    FirstSome(FindAll(doc, IsPriceString), PriceOf)
  }

  lemma FirstPriceIsDollars(strings: seq<Node>)
    requires forall i :: 0 <= i < |strings| ==> IsPriceString(strings[i])
    ensures var r := FirstSome(strings, PriceOf); r.Some? ==> AllDollars(r.value) && |r.value| <= 4
  {
    var r := FirstSome(strings, PriceOf);
    if r.Some? {
      var k :| 0 <= k < |strings| && PriceOf(strings[k]) == r;
      PriceMarkupStrips(strings[k].content);
    }
  }

  /** The spaced visible text of the first `address` tag, when it has any. */
  function AddressTagText(doc: Node): Option<string>
  {
    var tag := Find(doc, TagIs("address"));
    if tag.Some? && SpacedText(tag.value) != "" then Some(SpacedText(tag.value)) else None
  }

  /**
   * `_extract_business_address`: the `address` tag's text when non-empty;
   * else the scripts in order, the first business script whose address
   * parts join to a non-empty text giving that text, and one that raises
   * failing the whole extraction.
   */
  function BusinessAddress(doc: Node, decode: JsonDecoder): (r: Result<Option<string>, ScriptError>)
    ensures AddressTagText(doc).Some? ==> r == Ok(AddressTagText(doc))
    ensures r.Ok? && r.value.Some? ==> r.value.value != ""
    ensures AddressTagText(doc).None? ==>
      var scripts := FindAll(doc, IsLdScript);
      (r == Ok(None) <==> forall i :: 0 <= i < |scripts| ==> AddressStep(decode)(scripts[i]).None?) &&
      (r.Ok? && r.value.Some? ==>
        exists k :: 0 <= k < |scripts| && ScriptAddress(scripts[k], decode).Ok? &&
          ScriptAddress(scripts[k], decode).value.Some? &&
          JoinedAddress(ScriptAddress(scripts[k], decode).value.value) == Ok(r.value.value) &&
          forall i :: 0 <= i < k ==> AddressStep(decode)(scripts[i]).None?) &&
      (r.Failure? ==>
        exists k :: 0 <= k < |scripts| && AddressStep(decode)(scripts[k]) == Some(Failure(r.error)) &&
          forall i :: 0 <= i < k ==> AddressStep(decode)(scripts[i]).None?)
  {
    if AddressTagText(doc).Some? then Ok(AddressTagText(doc))
    else ScriptsAddress(FindAll(doc, IsLdScript), decode)
  }

  /** The ld+json loop of `_extract_business_address` over the given scripts. */
  function ScriptsAddress(scripts: seq<Node>, decode: JsonDecoder): (r: Result<Option<string>, ScriptError>)
    ensures r.Ok? && r.value.Some? ==> r.value.value != ""
    ensures r == Ok(None) <==> forall i :: 0 <= i < |scripts| ==> AddressStep(decode)(scripts[i]).None?
    ensures r.Ok? && r.value.Some? ==>
      exists k :: 0 <= k < |scripts| && ScriptAddress(scripts[k], decode).Ok? &&
        ScriptAddress(scripts[k], decode).value.Some? &&
        JoinedAddress(ScriptAddress(scripts[k], decode).value.value) == Ok(r.value.value) &&
        forall i :: 0 <= i < k ==> AddressStep(decode)(scripts[i]).None?
    ensures r.Failure? ==>
      exists k :: 0 <= k < |scripts| && AddressStep(decode)(scripts[k]) == Some(Failure(r.error)) &&
        forall i :: 0 <= i < k ==> AddressStep(decode)(scripts[i]).None?
  {
    var r := FirstOutcome(scripts, AddressStep(decode));
    if r.Ok? && r.value.Some? then
      AddressHitIsJoined(scripts, decode, r.value.value);
      r
    else r
  }

  /**
   * The number a `tel:` link gives: its visible text, or when that is empty
   * its target with every "tel:" removed.
   */
  function PhoneOf(x: Node): Option<string>
  {
    var href := Attr(x, "href");
    if StartsWith(href, "tel:") then
      Some(if PlainText(x) != "" then PlainText(x) else RemoveAll(href, "tel:"))
    else None
  }

  /** `_extract_phone_number`: decided by the first link whose target starts with "tel:". */
  function ContactNumber(doc: Node): (r: Option<string>)
    ensures r.None? <==> forall i :: 0 <= i < |FindAll(doc, IsLink)| ==>
      !StartsWith(Attr(FindAll(doc, IsLink)[i], "href"), "tel:")
    ensures r.Some? ==>
      var links := FindAll(doc, IsLink);
      exists k :: 0 <= k < |links| && StartsWith(Attr(links[k], "href"), "tel:") &&
        (forall i :: 0 <= i < k ==> !StartsWith(Attr(links[i], "href"), "tel:")) &&
        r.value == if PlainText(links[k]) != "" then PlainText(links[k]) else RemoveAll(Attr(links[k], "href"), "tel:")
  {
    FirstSome(FindAll(doc, IsLink), PhoneOf)
  }

  /**
   * The fallback removes every "tel:" in the target, not only the leading
   * one: of two numbers (texts without a 't') behind one marker each, both
   * are kept, run together.
   */
  lemma PhoneFallbackRemovesEveryMarker(a: string, b: string)
    requires forall i :: 0 <= i < |a| ==> a[i] != 't'
    requires forall i :: 0 <= i < |b| ==> b[i] != 't'
    ensures RemoveAll("tel:" + a + "tel:" + b, "tel:") == a + b
  {
    RemoveAllBetweenMarkers("tel:", a, b);
  }

  /**
   * What `_parse_business_info` builds, the fields taken in the source's
   * order: the rating's error, when there is one, is the one raised.
   */
  function BusinessInfoOf(doc: Node, url: string, decode: JsonDecoder): (r: Result<BusinessInfo, ScriptError>)
    ensures r.Failure? <==> AverageRating(doc, decode).Failure? || BusinessAddress(doc, decode).Failure?
    ensures AverageRating(doc, decode).Failure? ==> r == Failure(AverageRating(doc, decode).error)
    ensures r.Ok? ==>
      r.value.businessUrl == url && r.value.businessName == BusinessName(doc) &&
      Ok(r.value.averageRating) == AverageRating(doc, decode) && r.value.totalReviewsText == TotalReviewsText(doc) &&
      r.value.priceRange == PriceRange(doc) && Ok(r.value.businessAddress) == BusinessAddress(doc, decode) &&
      r.value.contactNumber == ContactNumber(doc)
  {
    match AverageRating(doc, decode)
    case Failure(e) => Failure(e)
    case Ok(rating) =>
      match BusinessAddress(doc, decode)
      case Failure(e) => Failure(e)
      case Ok(address) =>
        Ok(BusinessInfo(url, BusinessName(doc), rating, TotalReviewsText(doc), PriceRange(doc), address, ContactNumber(doc)))
  }

  /** `_parse_business_info`: every field from its own strategy, the page URL kept as given. */
  method ParseBusinessInfo(doc: Node, url: string, decode: JsonDecoder) returns (r: Result<BusinessInfo, ScriptError>)
    ensures r == BusinessInfoOf(doc, url, decode)
    ensures r.Ok? ==> r.value.totalReviewsText.Some? ==> r.value.totalReviewsText.value in ReviewCountCandidates(doc)
  {
    var name := BusinessName(doc);
    var rating := AverageRating(doc, decode);
    if rating.Failure? {
      return Failure(rating.error);
    }
    var totalReviews := ExtractTotalReviewsText(doc);
    var price := PriceRange(doc);
    var address := BusinessAddress(doc, decode);
    if address.Failure? {
      return Failure(address.error);
    }
    var phone := ContactNumber(doc);
    r := Ok(BusinessInfo(url, name, rating.value, totalReviews, price, address.value, phone));
  }
}
