/**
 * Review dates. The free-text date parser is a collaborator of the core: it
 * is modelled as a partial function from text to an instant on one totally
 * ordered time line, together with the ISO-8601 rendering of an instant.
 */
module Dates {

  import opened Seqs

  /** A point in time; later instants are larger. */
  type Instant = int

  /** `parse_review_date` (None where it raises) and `datetime.isoformat`. */
  datatype DateCodec = DateCodec(parse: string -> Option<Instant>, iso: Instant -> string)

  datatype DateError =
    | UnparseableDate(text: string)
    | UnsupportedDateValue

  /** The value `_ensure_datetime` is handed: a datetime, a string, or something else. */
  datatype DateValue =
    | DateTimeArg(instant: Instant)
    | StringArg(text: string)
    | OtherArg

  /** `parse_review_date(text)`: the parser's verdict, its failure re-raised. */
  function ParseReviewDate(codec: DateCodec, text: string): (r: Result<Instant, DateError>)
    ensures r.Ok? <==> codec.parse(text).Some?
    ensures r.Ok? ==> codec.parse(text) == Some(r.value)
    ensures r.Failure? ==> r.error == UnparseableDate(text)
  {
    match codec.parse(text)
    case Some(d) => Ok(d)
    case None => Failure(UnparseableDate(text))
  }

  /**
   * `_ensure_datetime`: a datetime passes through unchanged, a string is
   * parsed, anything else is a type error.
   */
  function EnsureDateTime(v: DateValue, codec: DateCodec): (r: Result<Instant, DateError>)
    ensures v.DateTimeArg? ==> r == Ok(v.instant)
    ensures v.StringArg? ==> r == ParseReviewDate(codec, v.text)
    ensures v.OtherArg? ==> r == Failure(UnsupportedDateValue)
  {
    match v
    case DateTimeArg(d) => Ok(d)
    case StringArg(s) => ParseReviewDate(codec, s)
    case OtherArg => Failure(UnsupportedDateValue)
  }

  /** Normalising a normalised value changes nothing. */
  lemma EnsureDateTimeIdempotent(v: DateValue, codec: DateCodec)
    requires EnsureDateTime(v, codec).Ok?
    ensures EnsureDateTime(DateTimeArg(EnsureDateTime(v, codec).value), codec) == EnsureDateTime(v, codec)
  {
  }

  /**
   * The parser reads its own ISO rendering back (and that rendering is never
   * empty): the date round trip the pipeline relies on.
   */
  ghost predicate IsoRoundTrips(codec: DateCodec)
  {
    forall d :: codec.iso(d) != "" && codec.parse(codec.iso(d)) == Some(d)
  }
}
