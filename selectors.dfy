/**
 * Matching rules used by more than one extractor.
 */
module Selectors {

  import opened Seqs
  import opened Text
  import opened Patterns
  import opened Dom

  /** `find_all("a", href=True)`. */
  predicate IsLink(x: Node)
  {
    x.Element? && x.tag == "a" && HasAttr(x, "href")
  }

  /** `find(attrs={"aria-label": re.compile("star rating", re.I)})`. */
  predicate HasStarLabel(x: Node)
  {
    HasAttr(x, "aria-label") && MentionsStarRating(x.attrs["aria-label"])
  }

  /** The visible text of a node, when it has any. */
  function TextIfAny(x: Node): (r: Option<string>)
    ensures r.Some? ==> r.value != "" && r.value == PlainText(x)
    ensures r.None? <==> PlainText(x) == ""
  {
    if PlainText(x) != "" then Some(PlainText(x)) else None
  }

  /** `strong = n.find("strong"); if strong and strong.get_text(strip=True)`: only the first `strong` counts. */
  function StrongText(n: Node): (r: Option<string>)
    ensures r.Some? <==> Find(n, TagIs("strong")).Some? && PlainText(Find(n, TagIs("strong")).value) != ""
    ensures r.Some? ==> r.value == PlainText(Find(n, TagIs("strong")).value)
  {
    var strong := Find(n, TagIs("strong"));
    if strong.Some? then TextIfAny(strong.value) else None
  }
}
